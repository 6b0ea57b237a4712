/** The two batch shapes the modals build on uploadImage and deleteImage:
    `Promise.all(files.map(uploadImage))`, which rejects when any upload
    fails, and `Promise.allSettled(urls.map(deleteImage))`, whose failures are
    swallowed.

    Every upload of a batch is started, so every upload is performed whatever
    happens to the others; the store sees them in file order. */
module ImageBatch {
  import opened Common
  import opened StorageUtils

  datatype BatchOutcome = AllUploaded(urls: seq<string>) | BatchFailed(message: string)

  datatype BatchUpload = BatchUpload(outcome: BatchOutcome, storage: set<string>)

  /** The object paths a batch of uploads writes to. */
  function PathsFor(files: seq<File>, ids: seq<string>): (paths: seq<string>)
    requires |ids| == |files|
    ensures |paths| == |files|
    ensures forall k :: 0 <= k < |files| ==> paths[k] == ObjectPathFor(ids[k], files[k].name)
  {
    if |files| == 0 then [] else [ObjectPathFor(ids[0], files[0].name)] + PathsFor(files[1..], ids[1..])
  }

  function Elements<T>(s: seq<T>): set<T>
  {
    set x | x in s
  }

  /** `await Promise.all(files.map(file => uploadImage(file)))`, the k-th
      upload using id `ids[k]` and meeting the store's reply `replies[k]`. It
      resolves with the URLs in file order, or rejects with the message of the
      first failed upload. */
  function UploadAll(files: seq<File>, ids: seq<string>, replies: seq<StorageReply>, storage: set<string>): (b: BatchUpload)
    requires |ids| == |files| && |replies| == |files|
    ensures storage <= b.storage
    ensures b.storage <= storage + Elements(PathsFor(files, ids))
    ensures b.outcome.AllUploaded? ==>
      |b.outcome.urls| == |files| &&
      forall k :: 0 <= k < |files| ==> b.outcome.urls[k] == PublicUrl(PathsFor(files, ids)[k])
    decreases |files|
  {
    if |files| == 0 then BatchUpload(AllUploaded([]), storage)
    else
      var u := UploadImage(Some(files[0]), ids[0], storage, replies[0]);
      var rest := UploadAll(files[1..], ids[1..], replies[1..], u.storage);
      assert PathsFor(files, ids) == [ObjectPathFor(ids[0], files[0].name)] + PathsFor(files[1..], ids[1..]);
      var outcome :=
        if u.result.UploadFailed? then BatchFailed(u.result.message)
        else if rest.outcome.BatchFailed? then rest.outcome
        else AllUploaded([u.result.url] + rest.outcome.urls);
      BatchUpload(outcome, rest.storage)
  }

  /** Some upload of the batch fails. */
  predicate SomeUploadFails(files: seq<File>, ids: seq<string>, replies: seq<StorageReply>, storage: set<string>)
    requires |ids| == |files| && |replies| == |files|
  {
    exists k :: 0 <= k < |files| && UploadStep(files, ids, replies, storage, k).result.UploadFailed?
  }

  lemma SomeUploadFailsCons(files: seq<File>, ids: seq<string>, replies: seq<StorageReply>, storage: set<string>)
    requires |ids| == |files| && |replies| == |files| && |files| > 0
    ensures var u := UploadImage(Some(files[0]), ids[0], storage, replies[0]);
      SomeUploadFails(files, ids, replies, storage) <==>
        u.result.UploadFailed? || SomeUploadFails(files[1..], ids[1..], replies[1..], u.storage)
  {
    var u := UploadImage(Some(files[0]), ids[0], storage, replies[0]);
    assert UploadStep(files, ids, replies, storage, 0) == u;
    if SomeUploadFails(files[1..], ids[1..], replies[1..], u.storage) {
      var j :| 0 <= j < |files| - 1 && UploadStep(files[1..], ids[1..], replies[1..], u.storage, j).result.UploadFailed?;
      UploadStepShift(files, ids, replies, storage, j + 1);
    }
    if SomeUploadFails(files, ids, replies, storage) && !u.result.UploadFailed? {
      var k :| 0 <= k < |files| && UploadStep(files, ids, replies, storage, k).result.UploadFailed?;
      UploadStepShift(files, ids, replies, storage, k);
      assert UploadStep(files[1..], ids[1..], replies[1..], u.storage, k - 1).result.UploadFailed?;
    }
  }

  /** The batch fails exactly when one of its uploads does. */
  lemma {:induction false} UploadAllFailsIff(files: seq<File>, ids: seq<string>, replies: seq<StorageReply>, storage: set<string>)
    requires |ids| == |files| && |replies| == |files|
    ensures UploadAll(files, ids, replies, storage).outcome.BatchFailed? <==> SomeUploadFails(files, ids, replies, storage)
    decreases |files|
  {
    if |files| > 0 {
      var u := UploadImage(Some(files[0]), ids[0], storage, replies[0]);
      UploadAllFailsIff(files[1..], ids[1..], replies[1..], u.storage);
      SomeUploadFailsCons(files, ids, replies, storage);
    }
  }

  /** What a failed batch raises is the message of an upload failure. */
  lemma {:induction false} UploadAllFailureMessage(files: seq<File>, ids: seq<string>, replies: seq<StorageReply>, storage: set<string>)
    requires |ids| == |files| && |replies| == |files|
    ensures var b := UploadAll(files, ids, replies, storage);
      b.outcome.BatchFailed? ==> IsUploadFailure(b.outcome.message)
    decreases |files|
  {
    if |files| > 0 {
      var u := UploadImage(Some(files[0]), ids[0], storage, replies[0]);
      UploadAllFailureMessage(files[1..], ids[1..], replies[1..], u.storage);
      UploadFailureMessage(files[0], ids[0], storage, replies[0]);
    }
  }

  /** The k-th upload of a batch: the store it meets holds the objects of the
      uploads before it. */
  function UploadStep(files: seq<File>, ids: seq<string>, replies: seq<StorageReply>, storage: set<string>, k: nat): Upload
    requires |ids| == |files| && |replies| == |files| && k < |files|
    decreases k
  {
    if k == 0 then UploadImage(Some(files[0]), ids[0], storage, replies[0])
    else UploadStep(files[1..], ids[1..], replies[1..], UploadImage(Some(files[0]), ids[0], storage, replies[0]).storage, k - 1)
  }

  lemma UploadStepShift(files: seq<File>, ids: seq<string>, replies: seq<StorageReply>, storage: set<string>, k: nat)
    requires |ids| == |files| && |replies| == |files| && 1 <= k < |files|
    ensures UploadStep(files, ids, replies, storage, k) ==
      UploadStep(files[1..], ids[1..], replies[1..], UploadImage(Some(files[0]), ids[0], storage, replies[0]).storage, k - 1)
  {
  }

  /** An upload that succeeded leaves its object behind even when the batch
      rejects: the batch's caller never learns its URL. */
  lemma {:induction false} SucceededUploadsStay(files: seq<File>, ids: seq<string>, replies: seq<StorageReply>, storage: set<string>, k: nat)
    requires |ids| == |files| && |replies| == |files| && k < |files|
    requires UploadStep(files, ids, replies, storage, k).result.Uploaded?
    ensures ObjectPathFor(ids[k], files[k].name) in UploadAll(files, ids, replies, storage).storage
    ensures ObjectPathFor(ids[k], files[k].name) !in storage
    decreases k
  {
    var u := UploadImage(Some(files[0]), ids[0], storage, replies[0]);
    if k > 0 {
      SucceededUploadsStay(files[1..], ids[1..], replies[1..], u.storage, k - 1);
    }
  }

  // ---------------------------------------------------------------------------
  // Promise.allSettled(urls.map(deleteImage))
  // ---------------------------------------------------------------------------

  /** The object paths a batch of deletions removes, given the store's reply to
      each `remove`. */
  function RemovedSet(urls: seq<string>, removeErrors: seq<Option<string>>): set<string>
    requires |removeErrors| == |urls|
  {
    if |urls| == 0 then {}
    else
      var p := RemovedPath(urls[0], removeErrors[0]);
      (if p.Some? then {p.value} else {}) + RemovedSet(urls[1..], removeErrors[1..])
  }

  lemma RemovedSetCons(urls: seq<string>, removeErrors: seq<Option<string>>)
    requires |removeErrors| == |urls| > 0
    ensures RemovedSet(urls, removeErrors) ==
      (if RemovedPath(urls[0], removeErrors[0]).Some? then {RemovedPath(urls[0], removeErrors[0]).value} else {}) +
      RemovedSet(urls[1..], removeErrors[1..])
  {
  }

  /** The bucket after `await Promise.allSettled(urls.map(deleteImage))`; the
      deletions' errors are swallowed. */
  function DeleteAll(urls: seq<string>, storage: set<string>, removeErrors: seq<Option<string>>): (after: set<string>)
    requires |removeErrors| == |urls|
    ensures after <= storage
  {
    if |urls| == 0 then storage
    else DeleteAll(urls[1..], DeleteImage(urls[0], storage, removeErrors[0]).storage, removeErrors[1..])
  }

  /** The deletions of a batch commute: the bucket loses exactly the objects
      the batch's replies let go, whatever order they are issued in. */
  lemma {:induction false} DeleteAllRemoves(urls: seq<string>, storage: set<string>, removeErrors: seq<Option<string>>)
    requires |removeErrors| == |urls|
    ensures DeleteAll(urls, storage, removeErrors) == storage - RemovedSet(urls, removeErrors)
  {
    if |urls| > 0 {
      DeleteAllRemoves(urls[1..], DeleteImage(urls[0], storage, removeErrors[0]).storage, removeErrors[1..]);
    }
  }

  function NoErrors(n: nat): (r: seq<Option<string>>)
    ensures |r| == n && forall k :: 0 <= k < n ==> r[k] == None
  {
    seq(n, _ => None)
  }

  /** When every upload of a batch succeeds, the batch writes fresh objects,
      one per file, and nothing else. */
  lemma {:induction false} AllUploadedWritesFreshObjects(files: seq<File>, ids: seq<string>, replies: seq<StorageReply>, storage: set<string>)
    requires |ids| == |files| && |replies| == |files|
    requires UploadAll(files, ids, replies, storage).outcome.AllUploaded?
    ensures UploadAll(files, ids, replies, storage).storage == storage + Elements(PathsFor(files, ids))
    ensures storage !! Elements(PathsFor(files, ids))
    decreases |files|
  {
    if |files| > 0 {
      var u := UploadImage(Some(files[0]), ids[0], storage, replies[0]);
      AllUploadedWritesFreshObjects(files[1..], ids[1..], replies[1..], u.storage);
      PathsForCons(files, ids);
    }
  }

  lemma PathsForCons(files: seq<File>, ids: seq<string>)
    requires |ids| == |files| && |files| > 0
    ensures PathsFor(files, ids) == [ObjectPathFor(ids[0], files[0].name)] + PathsFor(files[1..], ids[1..])
    ensures Elements(PathsFor(files, ids)) == {ObjectPathFor(ids[0], files[0].name)} + Elements(PathsFor(files[1..], ids[1..]))
  {
  }

  /** The objects of a successful batch are pairwise distinct. */
  lemma {:induction false} AllUploadedPathsDistinct(files: seq<File>, ids: seq<string>, replies: seq<StorageReply>, storage: set<string>)
    requires |ids| == |files| && |replies| == |files|
    requires UploadAll(files, ids, replies, storage).outcome.AllUploaded?
    ensures Distinct(PathsFor(files, ids))
    decreases |files|
  {
    if |files| > 0 {
      var u := UploadImage(Some(files[0]), ids[0], storage, replies[0]);
      AllUploadedPathsDistinct(files[1..], ids[1..], replies[1..], u.storage);
      AllUploadedWritesFreshObjects(files[1..], ids[1..], replies[1..], u.storage);
      PathsForCons(files, ids);
      var paths := PathsFor(files, ids);
      var restPaths := PathsFor(files[1..], ids[1..]);
      forall i, j | 0 <= i < j < |paths| ensures paths[i] != paths[j] {
        assert paths[j] == restPaths[j - 1];
        if i == 0 {
          assert paths[j] in Elements(restPaths);
        } else {
          assert paths[i] == restPaths[i - 1];
        }
      }
    }
  }

  /** Deleting the URLs of a successful batch, when the store answers every
      `remove` without error, lets go of exactly the batch's objects. */
  lemma {:induction false} AllUploadedRemovedSet(files: seq<File>, ids: seq<string>, replies: seq<StorageReply>, storage: set<string>)
    requires |ids| == |files| && |replies| == |files|
    requires UploadAll(files, ids, replies, storage).outcome.AllUploaded?
    ensures RemovedSet(UploadAll(files, ids, replies, storage).outcome.urls, NoErrors(|files|)) == Elements(PathsFor(files, ids))
    decreases |files|
  {
    if |files| > 0 {
      var u := UploadImage(Some(files[0]), ids[0], storage, replies[0]);
      var p := ObjectPathFor(ids[0], files[0].name);
      var urls := UploadAll(files, ids, replies, storage).outcome.urls;
      var restUrls := UploadAll(files[1..], ids[1..], replies[1..], u.storage).outcome.urls;
      AllUploadedRemovedSet(files[1..], ids[1..], replies[1..], u.storage);
      PathsForCons(files, ids);
      assert urls[0] == PublicUrl(p);
      assert urls[1..] == restUrls;
      RemovedSetOfPublicUrl(urls, p);
    }
  }

  /** With no errors, deleting a list of URLs headed by the public URL of an
      object lets go of that object and of what the rest lets go of. */
  lemma RemovedSetOfPublicUrl(urls: seq<string>, p: string)
    requires |urls| > 0 && urls[0] == PublicUrl(p) && StartsWith(p, PUBLIC_FOLDER)
    ensures RemovedSet(urls, NoErrors(|urls|)) == {p} + RemovedSet(urls[1..], NoErrors(|urls| - 1))
  {
    LocatePublicUrl(p);
    assert RemovedPath(urls[0], None) == Some(p);
    RemovedSetCons(urls, NoErrors(|urls|));
    assert NoErrors(|urls|)[1..] == NoErrors(|urls| - 1);
  }

  /** Undoing a successful batch: deleting the URLs it returned, when the store
      answers every `remove` without error, leaves the bucket as it was before
      the batch. */
  lemma UploadAllThenDeleteAll(files: seq<File>, ids: seq<string>, replies: seq<StorageReply>, storage: set<string>)
    requires |ids| == |files| && |replies| == |files|
    requires UploadAll(files, ids, replies, storage).outcome.AllUploaded?
    ensures var b := UploadAll(files, ids, replies, storage);
      DeleteAll(b.outcome.urls, b.storage, NoErrors(|files|)) == storage
  {
    var b := UploadAll(files, ids, replies, storage);
    AllUploadedWritesFreshObjects(files, ids, replies, storage);
    AllUploadedRemovedSet(files, ids, replies, storage);
    DeleteAllRemoves(b.outcome.urls, b.storage, NoErrors(|files|));
  }

  /** Deleting the public URLs of some object paths can only remove those
      paths, whatever the store answers. */
  lemma {:induction false} RemovedSetWithin(urls: seq<string>, paths: seq<string>, removeErrors: seq<Option<string>>)
    requires |urls| == |paths| && |removeErrors| == |urls|
    requires forall k :: 0 <= k < |paths| ==> StartsWith(paths[k], PUBLIC_FOLDER) && urls[k] == PublicUrl(paths[k])
    ensures RemovedSet(urls, removeErrors) <= Elements(paths)
  {
    if |urls| > 0 {
      LocatePublicUrl(paths[0]);
      RemovedSetWithin(urls[1..], paths[1..], removeErrors[1..]);
      assert Elements(paths) == {paths[0]} + Elements(paths[1..]);
    }
  }

  /** Deleting published URLs removes only objects of the bucket, and never
      the object of another published URL. */
  lemma {:induction false} RemovedSetSpares(urls: seq<string>, removeErrors: seq<Option<string>>, storage: set<string>)
    requires |removeErrors| == |urls|
    requires AllPublished(urls, storage)
    ensures RemovedSet(urls, removeErrors) <= storage
    ensures forall u :: Published(u, storage) && u !in urls ==> LocateObject(u).path !in RemovedSet(urls, removeErrors)
  {
    if |urls| > 0 {
      assert urls[0] in urls;
      assert AllPublished(urls[1..], storage) by {
        forall u | u in urls[1..] ensures Published(u, storage) {
          assert u in urls;
        }
      }
      RemovedSetSpares(urls[1..], removeErrors[1..], storage);
      RemovedSetCons(urls, removeErrors);
      forall u | Published(u, storage) && u !in urls
        ensures LocateObject(u).path !in RemovedSet(urls, removeErrors)
      {
        assert u !in urls[1..];
        assert u != urls[0];
      }
    }
  }

  /** A URL a successful batch returned stays published while only objects
      that were there before the batch are removed. */
  lemma UploadedUrlPublished(
    files: seq<File>, ids: seq<string>, replies: seq<StorageReply>, storage: set<string>, removed: set<string>, u: string)
    requires |ids| == |files| && |replies| == |files|
    requires UploadAll(files, ids, replies, storage).outcome.AllUploaded?
    requires u in UploadAll(files, ids, replies, storage).outcome.urls
    requires removed <= storage
    ensures Published(u, (storage + Elements(PathsFor(files, ids))) - removed)
  {
    var paths := PathsFor(files, ids);
    var urls := UploadAll(files, ids, replies, storage).outcome.urls;
    var k :| 0 <= k < |urls| && urls[k] == u;
    AllUploadedWritesFreshObjects(files, ids, replies, storage);
    LocatePublicUrl(paths[k]);
    assert paths[k] in Elements(paths);
  }

  /** An edit that writes the retained URLs and a successful batch's URLs,
      and then deletes dropped URLs taken from the stored list, leaves every
      written URL the public URL of an object in the bucket: the removals never
      reach a retained image or a new upload. */
  lemma EditKeepsWrittenImages(
    current: seq<string>, urlsToRemove: seq<string>, written: seq<string>,
    files: seq<File>, ids: seq<string>, replies: seq<StorageReply>, cleanupErrors: seq<Option<string>>, storage: set<string>)
    requires |ids| == |files| && |replies| == |files| && |cleanupErrors| == |urlsToRemove|
    requires UploadAll(files, ids, replies, storage).outcome.AllUploaded?
    requires AllPublished(current, storage)
    requires forall r :: r in urlsToRemove ==> r in current
    requires forall u :: u in written ==>
      (u in current && u !in urlsToRemove) || u in UploadAll(files, ids, replies, storage).outcome.urls
    ensures AllPublished(written, (storage + Elements(PathsFor(files, ids))) - RemovedSet(urlsToRemove, cleanupErrors))
  {
    var removed := RemovedSet(urlsToRemove, cleanupErrors);
    var after := (storage + Elements(PathsFor(files, ids))) - removed;
    assert AllPublished(urlsToRemove, storage) by {
      forall r | r in urlsToRemove ensures Published(r, storage) {
        assert r in current;
      }
    }
    RemovedSetSpares(urlsToRemove, cleanupErrors, storage);
    forall u | u in written ensures Published(u, after) {
      if u in current && u !in urlsToRemove {
        assert Published(u, storage);
      } else {
        UploadedUrlPublished(files, ids, replies, storage, removed, u);
      }
    }
  }
}
