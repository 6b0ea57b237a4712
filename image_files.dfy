/** The image rules the admin forms share (BlogForm.js, ServicesForm.js,
    ProductForm.js): accepted MIME types, the 2 MB size cap, the three-image
    limit of the multi-image forms, and the messages a rejected file gets.

    A preview is either an image already stored (its URL) or an object URL the
    browser made for a pending file; the latter is a tagged value with a fresh
    number instead of a `blob:` string. */
module ImageRules {
  import opened Common

  const MAX_FILE_SIZE_MB: nat := 2
  const MAX_FILE_SIZE_BYTES: nat := MAX_FILE_SIZE_MB * 1024 * 1024
  const ACCEPTED_IMAGE_TYPES: seq<string> := ["image/jpg", "image/jpeg", "image/png", "image/webp", "image/gif"]
  const MAX_IMAGES: nat := 3

  datatype Preview = Existing(url: string) | Blob(id: nat)

  /** Why one file of a batch is refused; the checks run in this order. */
  datatype FileProblem = UnacceptedType(name: string) | TooLarge(name: string)

  function FileProblemOf(f: File): (p: Option<FileProblem>)
    ensures p == None <==> f.mimeType in ACCEPTED_IMAGE_TYPES && f.size <= MAX_FILE_SIZE_BYTES
    ensures p.Some? ==> p.value.name == f.name
    ensures p.Some? && p.value.TooLarge? ==> f.mimeType in ACCEPTED_IMAGE_TYPES
  {
    if f.mimeType !in ACCEPTED_IMAGE_TYPES then Some(UnacceptedType(f.name))
    else if f.size > MAX_FILE_SIZE_BYTES then Some(TooLarge(f.name))
    else None
  }

  /** The problem of the first refused file of a batch, which ends the scan. */
  function BatchProblem(batch: seq<File>): Option<FileProblem>
  {
    if |batch| == 0 then None
    else if FileProblemOf(batch[0]).Some? then FileProblemOf(batch[0])
    else BatchProblem(batch[1..])
  }

  /** A batch is refused exactly when one of its files is, and then for the
      reason of the first such file. */
  lemma {:induction false} BatchProblemIsFirst(batch: seq<File>)
    ensures BatchProblem(batch).None? <==> forall k :: 0 <= k < |batch| ==> FileProblemOf(batch[k]).None?
    ensures BatchProblem(batch).Some? ==>
      exists k :: 0 <= k < |batch| && FileProblemOf(batch[k]) == BatchProblem(batch) &&
                  forall j :: 0 <= j < k ==> FileProblemOf(batch[j]).None?
  {
    if |batch| > 0 && FileProblemOf(batch[0]).None? {
      BatchProblemIsFirst(batch[1..]);
      if BatchProblem(batch).Some? {
        var k :| 0 <= k < |batch| - 1 && FileProblemOf(batch[1..][k]) == BatchProblem(batch[1..]) &&
                 forall j :: 0 <= j < k ==> FileProblemOf(batch[1..][j]).None?;
        assert FileProblemOf(batch[k + 1]) == BatchProblem(batch);
        forall j | 0 <= j < k + 1 ensures FileProblemOf(batch[j]).None? {
          if j > 0 { assert batch[j] == batch[1..][j - 1]; }
        }
      }
      forall k | 0 <= k < |batch| && BatchProblem(batch).None? ensures FileProblemOf(batch[k]).None? {
        if k > 0 { assert batch[k] == batch[1..][k - 1]; }
      }
    } else if |batch| > 0 {
      assert FileProblemOf(batch[0]) == BatchProblem(batch);
    }
  }

  /** The `for (const file of files)` loop of the forms' file handlers: files
      are checked in order, the valid ones are collected, and the first
      refused file ends the scan. */
  method ScanBatch(batch: seq<File>) returns (validFiles: seq<File>, problem: Option<FileProblem>)
    ensures problem == BatchProblem(batch)
    ensures |validFiles| <= |batch| && validFiles == batch[..|validFiles|]
    ensures problem.None? ==> validFiles == batch
    ensures problem.Some? ==> |validFiles| < |batch| && FileProblemOf(batch[|validFiles|]) == problem
    ensures forall j :: 0 <= j < |validFiles| ==> FileProblemOf(validFiles[j]).None?
  {
    validFiles := [];
    problem := None;
    var i := 0;
    while i < |batch|
      invariant i <= |batch| && validFiles == batch[..i]
      invariant forall j :: 0 <= j < i ==> FileProblemOf(batch[j]).None?
      invariant BatchProblem(batch) == BatchProblem(batch[i..])
    {
      var p := FileProblemOf(batch[i]);
      if p.Some? {
        problem := p;
        return;
      }
      assert batch[i..][1..] == batch[i + 1..];
      validFiles := validFiles + [batch[i]];
      i := i + 1;
    }
    assert batch[..i] == batch;
  }

  function ProblemMessage(p: FileProblem): string
  {
    match p
    case UnacceptedType(name) => "Archivo '" + name + "' tiene un tipo no permitido."
    case TooLarge(name) => "Archivo '" + name + "' excede el tamaño máximo de " + NatToString(MAX_FILE_SIZE_MB) + "MB."
  }

  /** The message for a batch larger than the free slots. */
  function SlotsMessage(availableSlots: int): string
  {
    "Puedes subir " +
    (if availableSlots > 0 then "hasta " + IntToString(availableSlots) + " imágenes más" else "ninguna imagen más") +
    " (límite de " + NatToString(MAX_IMAGES) + ")."
  }

  /** `error.message || fallback`: the rejection's message, or the form's
      fallback text when the rejection carries none. */
  function RejectionText(message: string, fallback: string): (r: string)
    ensures message != "" ==> r == message
    ensures message == "" ==> r == fallback
  {
    if message != "" then message else fallback
  }

  /** The previews of stored images, in order. */
  function ExistingPreviews(urls: seq<string>): (ps: seq<Preview>)
    ensures |ps| == |urls|
    ensures forall k :: 0 <= k < |urls| ==> ps[k] == Existing(urls[k])
  {
    seq(|urls|, k requires 0 <= k < |urls| => Existing(urls[k]))
  }

  /** Fresh object-URL previews for `n` files, numbered from `first`. */
  function BlobPreviews(first: nat, n: nat): (ps: seq<Preview>)
    ensures |ps| == n
    ensures forall k :: 0 <= k < n ==> ps[k] == Blob(first + k)
  {
    seq(n, k requires 0 <= k < n => Blob(first + k))
  }

  /** The blob previews of a preview list, in order. */
  function BlobsOf(ps: seq<Preview>): (bs: seq<Preview>)
    ensures forall p :: p in bs ==> p in ps && p.Blob?
  {
    if |ps| == 0 then []
    else if ps[0].Blob? then [ps[0]] + BlobsOf(ps[1..])
    else BlobsOf(ps[1..])
  }

  /** The shape every multi-image form keeps: the previews are the retained
      stored images, in order, followed by one distinct fresh preview per
      pending file, and there are at most three of them. */
  predicate PreviewsMatch(previews: seq<Preview>, kept: seq<string>, fileCount: nat, nextBlobId: nat)
  {
    |previews| == |kept| + fileCount &&
    |previews| <= MAX_IMAGES &&
    previews[..|kept|] == ExistingPreviews(kept) &&
    (forall k :: |kept| <= k < |previews| ==> previews[k].Blob? && previews[k].id < nextBlobId) &&
    Distinct(previews)
  }

  /** Under that shape, a blob preview's position among the blob previews is
      its position among the pending files. */
  lemma {:induction false} BlobIndexIsFileIndex(previews: seq<Preview>, kept: seq<string>, fileCount: nat, nextBlobId: nat, index: nat)
    requires PreviewsMatch(previews, kept, fileCount, nextBlobId)
    requires |kept| <= index < |previews|
    ensures IndexOf(BlobsOf(previews), previews[index]) == index - |kept|
  {
    var tail := previews[|kept|..];
    BlobsAfterKept(previews, kept);
    DistinctTail(previews, |kept|);
    assert tail[index - |kept|] == previews[index];
    DistinctIndexOf(tail, index - |kept|);
  }

  /** Stored previews followed by blob previews: the blobs are the tail. */
  lemma BlobsAfterKept(previews: seq<Preview>, kept: seq<string>)
    requires |kept| <= |previews| && previews[..|kept|] == ExistingPreviews(kept)
    requires forall k :: |kept| <= k < |previews| ==> previews[k].Blob?
    ensures BlobsOf(previews) == previews[|kept|..]
  {
    var tail := previews[|kept|..];
    BlobsOfSplit(previews, |kept|);
    NoBlobsInExisting(kept);
    assert forall k :: 0 <= k < |tail| ==> tail[k] == previews[|kept| + k];
    AllBlobs(tail);
  }

  lemma {:induction false} BlobsOfSplit(ps: seq<Preview>, n: nat)
    requires n <= |ps|
    ensures BlobsOf(ps) == BlobsOf(ps[..n]) + BlobsOf(ps[n..])
  {
    if n > 0 {
      BlobsOfSplit(ps[1..], n - 1);
      assert ps[1..][..n - 1] == ps[..n][1..];
      assert ps[1..][n - 1..] == ps[n..];
    }
  }

  lemma {:induction false} NoBlobsInExisting(urls: seq<string>)
    ensures BlobsOf(ExistingPreviews(urls)) == []
  {
    if |urls| > 0 {
      NoBlobsInExisting(urls[1..]);
      assert ExistingPreviews(urls)[1..] == ExistingPreviews(urls[1..]);
    }
  }

  lemma {:induction false} AllBlobs(ps: seq<Preview>)
    requires forall k :: 0 <= k < |ps| ==> ps[k].Blob?
    ensures BlobsOf(ps) == ps
  {
    if |ps| > 0 {
      AllBlobs(ps[1..]);
    }
  }

  lemma DistinctIndexOf<T>(s: seq<T>, i: nat)
    requires Distinct(s) && i < |s|
    ensures IndexOf(s, s[i]) == i
  {
  }

  lemma DistinctTail<T>(s: seq<T>, n: nat)
    requires Distinct(s) && n <= |s|
    ensures Distinct(s[n..])
  {
    forall a, b | 0 <= a < b < |s[n..]| ensures s[n..][a] != s[n..][b] {
      assert s[n..][a] == s[a + n] && s[n..][b] == s[b + n];
    }
  }

  /** Appending fresh previews for an accepted batch keeps the shape, as long
      as the limit is respected. */
  lemma AppendBlobsKeepsShape(previews: seq<Preview>, kept: seq<string>, fileCount: nat, nextBlobId: nat, m: nat)
    requires PreviewsMatch(previews, kept, fileCount, nextBlobId)
    requires |previews| + m <= MAX_IMAGES
    ensures PreviewsMatch(previews + BlobPreviews(nextBlobId, m), kept, fileCount + m, nextBlobId + m)
  {
    var ps := previews + BlobPreviews(nextBlobId, m);
    assert ps[..|kept|] == previews[..|kept|];
    forall i, j | 0 <= i < j < |ps| ensures ps[i] != ps[j] {
      if j >= |previews| && i < |previews| {
        if i >= |kept| {
          assert ps[i].id < nextBlobId <= ps[j].id;
        } else {
          assert ps[i] == Existing(kept[i]);
        }
      }
    }
  }

  /** What handleFileChange leaves in the image state: the image error, the
      pending files, the previews and the next object-URL number. */
  datatype BatchAdd = BatchAdd(imageError: string, files: seq<File>, previews: seq<Preview>, nextBlobId: nat)

  /** handleFileChange of the multi-image forms: an empty selection changes
      nothing; a batch larger than the free slots, or holding a refused
      file, is refused whole with its message; otherwise every file is
      appended with a fresh preview, in order. */
  function AddBatchResult(files: seq<File>, previews: seq<Preview>, nextBlobId: nat, batch: seq<File>): (r: BatchAdd)
    ensures r.imageError == "" <==> |batch| == 0 || (|batch| <= MAX_IMAGES - |previews| && BatchProblem(batch).None?)
    ensures r.imageError == "" ==>
      r.files == files + batch && r.previews == previews + BlobPreviews(nextBlobId, |batch|) &&
      r.nextBlobId == nextBlobId + |batch|
    ensures r.imageError != "" ==> r.files == files && r.previews == previews && r.nextBlobId == nextBlobId
    ensures |batch| > 0 && |batch| > MAX_IMAGES - |previews| ==> r.imageError == SlotsMessage(MAX_IMAGES - |previews|)
    ensures 0 < |batch| <= MAX_IMAGES - |previews| && BatchProblem(batch).Some? ==>
      r.imageError == ProblemMessage(BatchProblem(batch).value)
  {
    if |batch| == 0 then BatchAdd("", files, previews, nextBlobId)
    else if |batch| > MAX_IMAGES - |previews| then BatchAdd(SlotsMessage(MAX_IMAGES - |previews|), files, previews, nextBlobId)
    else match BatchProblem(batch)
      case Some(p) => BatchAdd(ProblemMessage(p), files, previews, nextBlobId)
      case None => BatchAdd("", files + batch, previews + BlobPreviews(nextBlobId, |batch|), nextBlobId + |batch|)
  }

  /** The slot check and the per-file loop of handleFileChange. */
  method AddBatch(files: seq<File>, previews: seq<Preview>, nextBlobId: nat, batch: seq<File>) returns (r: BatchAdd)
    ensures r == AddBatchResult(files, previews, nextBlobId, batch)
  {
    var availableSlots := MAX_IMAGES - |previews|;
    if |batch| == 0 {
      return BatchAdd("", files, previews, nextBlobId);
    }
    if |batch| > availableSlots {
      return BatchAdd(SlotsMessage(availableSlots), files, previews, nextBlobId);
    }
    var validFiles, problem := ScanBatch(batch);
    if problem.Some? {
      return BatchAdd(ProblemMessage(problem.value), files, previews, nextBlobId);
    }
    r := BatchAdd("", files + validFiles, previews + BlobPreviews(nextBlobId, |validFiles|), nextBlobId + |validFiles|);
  }

  /** Adding a batch keeps the shape of the image list. */
  lemma AddBatchKeepsShape(files: seq<File>, previews: seq<Preview>, kept: seq<string>, nextBlobId: nat, batch: seq<File>)
    requires PreviewsMatch(previews, kept, |files|, nextBlobId)
    ensures var r := AddBatchResult(files, previews, nextBlobId, batch);
      PreviewsMatch(r.previews, kept, |r.files|, r.nextBlobId)
  {
    var r := AddBatchResult(files, previews, nextBlobId, batch);
    if r.imageError == "" {
      AppendBlobsKeepsShape(previews, kept, |files|, nextBlobId, |batch|);
    }
  }

  /** Under the shape, the retained stored images are pairwise distinct and
      the i-th of them is the i-th preview. */
  lemma KeptDistinct(previews: seq<Preview>, kept: seq<string>, fileCount: nat, nextBlobId: nat)
    requires PreviewsMatch(previews, kept, fileCount, nextBlobId)
    ensures Distinct(kept)
    ensures forall i :: 0 <= i < |kept| ==> previews[i] == Existing(kept[i])
  {
    forall i | 0 <= i < |kept| ensures previews[i] == Existing(kept[i]) {
      assert previews[..|kept|][i] == previews[i];
    }
  }

  /** Removing a stored image's preview and that image keeps the shape. */
  lemma RemoveExistingKeepsShape(previews: seq<Preview>, kept: seq<string>, fileCount: nat, nextBlobId: nat, index: nat)
    requires PreviewsMatch(previews, kept, fileCount, nextBlobId)
    requires index < |kept|
    ensures PreviewsMatch(RemoveAt(previews, index), RemoveAt(kept, index), fileCount, nextBlobId)
  {
    var ps := RemoveAt(previews, index);
    var ks := RemoveAt(kept, index);
    RemovedPrefix(previews, kept, index);
    assert forall k :: |ks| <= k < |ps| ==> ps[k] == previews[k + 1];
    RemoveAtDistinct(previews, index);
  }

  /** Removing the i-th stored image's preview leaves the previews of the
      remaining stored images in front. */
  lemma RemovedPrefix(previews: seq<Preview>, kept: seq<string>, index: nat)
    requires |kept| <= |previews| && previews[..|kept|] == ExistingPreviews(kept)
    requires index < |kept|
    ensures RemoveAt(previews, index)[..|kept| - 1] == ExistingPreviews(RemoveAt(kept, index))
  {
    var ps := RemoveAt(previews, index);
    var ks := RemoveAt(kept, index);
    forall i | 0 <= i < |ks| ensures ps[..|ks|][i] == ExistingPreviews(ks)[i] {
      assert ps[i] == (if i < index then previews[i] else previews[i + 1]);
      assert previews[..|kept|][if i < index then i else i + 1] == previews[if i < index then i else i + 1];
    }
  }

  /** Removing an entry keeps a list free of duplicates. */
  lemma RemoveAtDistinct<T>(s: seq<T>, index: nat)
    requires Distinct(s) && index < |s|
    ensures Distinct(RemoveAt(s, index))
  {
    var r := RemoveAt(s, index);
    forall i, j | 0 <= i < j < |r| ensures r[i] != r[j] {
      var i' := if i < index then i else i + 1;
      var j' := if j < index then j else j + 1;
      assert r[i] == s[i'] && r[j] == s[j'];
    }
  }

  /** Removing a pending file's preview and that file keeps the shape. */
  lemma RemoveBlobKeepsShape(previews: seq<Preview>, kept: seq<string>, fileCount: nat, nextBlobId: nat, index: nat)
    requires PreviewsMatch(previews, kept, fileCount, nextBlobId)
    requires |kept| <= index < |previews|
    ensures fileCount > 0
    ensures PreviewsMatch(RemoveAt(previews, index), kept, fileCount - 1, nextBlobId)
  {
    var ps := RemoveAt(previews, index);
    assert ps[..|kept|] == previews[..|kept|];
    RemoveAtDistinct(previews, index);
  }

  /** The previews of distinct stored images, at most three, have the shape,
      with no pending file. */
  lemma ExistingShape(urls: seq<string>, nextBlobId: nat)
    requires Distinct(urls) && |urls| <= MAX_IMAGES
    ensures PreviewsMatch(ExistingPreviews(urls), urls, 0, nextBlobId)
  {
    var ps := ExistingPreviews(urls);
    assert ps[..|urls|] == ps;
    forall i, j | 0 <= i < j < |ps| ensures ps[i] != ps[j] {
      assert ps[i] == Existing(urls[i]) && ps[j] == Existing(urls[j]);
    }
  }

  /** The stored images an edit drops: `originals.filter(url => !kept.includes(url))`. */
  function UrlsToRemove(originals: seq<string>, kept: seq<string>): seq<string>
  {
    Without(originals, kept)
  }

  /** Each stored image of the entry is either retained or dropped, never
      both, nothing else is dropped, and nothing is dropped while every stored
      image is retained. */
  lemma UrlsToRemovePartition(originals: seq<string>, kept: seq<string>)
    ensures forall u :: u in originals ==> (u in UrlsToRemove(originals, kept) <==> u !in kept)
    ensures forall u :: u in UrlsToRemove(originals, kept) ==> u in originals
    ensures (forall u :: u in originals ==> u in kept) ==> UrlsToRemove(originals, kept) == []
  {
    if forall u :: u in originals ==> u in kept {
      WithoutEverything(originals, kept);
    }
  }

  /** The image list an edit modal writes: the entry's current URLs without
      the dropped ones, then the new uploads, cut to MAX_IMAGES. */
  function FinalImageUrls(current: seq<string>, urlsToRemove: seq<string>, uploaded: seq<string>): seq<string>
  {
    Take(Without(current, urlsToRemove) + uploaded, MAX_IMAGES)
  }

  /** The written list holds at most MAX_IMAGES URLs, each a retained current
      URL or a new upload; the retained ones come first in their order; and
      when retained and new together fit, nothing is cut. */
  lemma FinalImageUrlsSpec(current: seq<string>, urlsToRemove: seq<string>, uploaded: seq<string>)
    ensures var r := FinalImageUrls(current, urlsToRemove, uploaded);
      |r| <= MAX_IMAGES &&
      forall u :: u in r ==> (u in current && u !in urlsToRemove) || u in uploaded
    ensures var r := FinalImageUrls(current, urlsToRemove, uploaded);
      var retained := Without(current, urlsToRemove);
      |retained| <= MAX_IMAGES ==> |retained| <= |r| && r[..|retained|] == retained
    ensures var retained := Without(current, urlsToRemove);
      |retained| + |uploaded| <= MAX_IMAGES ==> FinalImageUrls(current, urlsToRemove, uploaded) == retained + uploaded
  {
    var retained := Without(current, urlsToRemove);
    var r := FinalImageUrls(current, urlsToRemove, uploaded);
    assert r == (retained + uploaded)[..|r|];
    forall u | u in r
      ensures (u in current && u !in urlsToRemove) || u in uploaded
    {
      var k :| 0 <= k < |r| && r[k] == u;
      assert u == (retained + uploaded)[k];
      if k < |retained| {
        assert u in retained;
      } else {
        assert u == uploaded[k - |retained|];
      }
    }
    if |retained| <= MAX_IMAGES {
      assert (retained + uploaded)[..|retained|] == retained;
    }
  }
}
