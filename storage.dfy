/** The image asset helper (src/supabaseUtils.js): naming and uploading one
    file into the 'pycsa-image' bucket, and turning a public URL back into the
    object path to remove.

    The bucket is a set of object paths. An image URL is represented by its
    pathname (what `new URL(u).pathname` yields); the origin is the same for
    every URL the bucket hands out and takes part in no rule. */
module StorageUtils {
  import opened Common

  const STORAGE_BUCKET: string := "pycsa-image"
  const PUBLIC_FOLDER: string := "public/"
  /** The storage error message that deleteImage treats as success. */
  const NOT_FOUND_MESSAGE: string := "The resource was not found"
  /** What the store answers to an upload with `upsert: false` whose path is
      already taken. */
  const ALREADY_EXISTS_MESSAGE: string := "The resource already exists"
  const PUBLIC_URL_FAILURE: string := "No se pudo obtener la URL pública de la imagen."
  const UPLOAD_ERROR_PREFIX: string := "Error al subir la imagen: "
  /** The segments of the pathname under which the store publishes the
      objects of the bucket, `/storage/v1/object/public/pycsa-image`. */
  const PREFIX_SEGMENTS: seq<string> := ["", "storage", "v1", "object", "public", STORAGE_BUCKET]

  // ---------------------------------------------------------------------------
  // String.prototype.split / Array.prototype.join on one separator character
  // ---------------------------------------------------------------------------

  function Split(s: string, sep: char): (parts: seq<string>)
    ensures |parts| >= 1
    decreases |s|
  {
    var i := IndexOf(s, sep);
    if i == -1 then [s]
    else
      [s[..i]] + Split(s[i + 1..], sep)
  }
  function Join(parts: seq<string>, sep: char): string
  {
    if |parts| == 0 then ""
    else if |parts| == 1 then parts[0]
    else parts[0] + [sep] + Join(parts[1..], sep)
  }
  function Last<T>(s: seq<T>): T
    requires |s| > 0
  {
    s[|s| - 1]
  }

  lemma JoinCons(x: string, rest: seq<string>, sep: char)
    requires |rest| >= 1
    ensures Join([x] + rest, sep) == x + [sep] + Join(rest, sep)
  {
    assert ([x] + rest)[1..] == rest;
  }
  lemma SplitAt(s: string, sep: char, i: int)
    requires i == IndexOf(s, sep) && i != -1
    ensures Split(s, sep) == [s[..i]] + Split(s[i + 1..], sep)
  {
    var parts := Split(s, sep);
    assert parts == [s[..i]] + Split(s[i + 1..], sep);
  }
  /** Joining the pieces of a split gives back the string. */
  lemma {:induction false} JoinSplit(s: string, sep: char)
    ensures Join(Split(s, sep), sep) == s
    decreases |s|
  {
    var i := IndexOf(s, sep);
    if i != -1 {
      SplitAt(s, sep, i);
      JoinSplit(s[i + 1..], sep);
      JoinCons(s[..i], Split(s[i + 1..], sep), sep);
    }
  }

  /** IndexOf is pinned down by its characterisation. */
  lemma IndexOfIs<T>(s: seq<T>, x: T, j: int)
    requires 0 <= j < |s| && s[j] == x
    requires forall k :: 0 <= k < j ==> s[k] != x
    ensures IndexOf(s, x) == j
  {
  }

  lemma SplitAroundBase(x: string, y: string, sep: char)
    requires sep !in x
    ensures Split(x + [sep] + y, sep) == [x] + Split(y, sep)
  {
    var s := x + [sep] + y;
    IndexOfIs(s, sep, |x|);
    SplitAt(s, sep, |x|);
    assert s[..|x|] == x && s[|x| + 1..] == y;
  }

  lemma SplitAroundStep(x: string, y: string, sep: char, i: int)
    requires i == IndexOf(x, sep) && i != -1
    ensures Split(x + [sep] + y, sep) == [x[..i]] + Split(x[i + 1..] + [sep] + y, sep)
  {
    var s := x + [sep] + y;
    IndexOfIs(s, sep, i);
    SplitAt(s, sep, i);
    SlicesOfConcat(x, sep, y, i);
  }

  lemma SlicesOfConcat(x: string, sep: char, y: string, i: int)
    requires 0 <= i < |x|
    ensures (x + [sep] + y)[..i] == x[..i]
    ensures (x + [sep] + y)[i + 1..] == x[i + 1..] + [sep] + y
  {
  }

  /** No piece of a split contains the separator. */
  lemma {:induction false} SplitPiecesFree(s: string, sep: char)
    ensures forall k :: 0 <= k < |Split(s, sep)| ==> sep !in Split(s, sep)[k]
    decreases |s|
  {
    var i := IndexOf(s, sep);
    if i != -1 {
      SplitAt(s, sep, i);
      SplitPiecesFree(s[i + 1..], sep);
      assert sep !in s[..i];
    }
  }

  lemma SplitSingle(s: string, sep: char)
    requires sep !in s
    ensures Split(s, sep) == [s]
  {
  }

  /** Splitting a join of separator-free pieces gives back the pieces. */
  lemma {:induction false} SplitJoin(parts: seq<string>, sep: char)
    requires |parts| >= 1
    requires forall k :: 0 <= k < |parts| ==> sep !in parts[k]
    ensures Split(Join(parts, sep), sep) == parts
  {
    if |parts| == 1 {
      SplitSingle(parts[0], sep);
    } else {
      var tail := parts[1..];
      forall k | 0 <= k < |tail| ensures sep !in tail[k] {
        assert tail[k] == parts[k + 1];
      }
      SplitJoin(tail, sep);
      assert sep !in parts[0];
      SplitJoinStep(parts, sep);
    }
  }

  lemma SplitJoinStep(parts: seq<string>, sep: char)
    requires |parts| >= 2 && sep !in parts[0]
    requires Split(Join(parts[1..], sep), sep) == parts[1..]
    ensures Split(Join(parts, sep), sep) == parts
  {
    var rest := Join(parts[1..], sep);
    assert Join(parts, sep) == parts[0] + [sep] + rest;
    SplitAround(parts[0], rest, sep);
    SplitSingle(parts[0], sep);
    assert parts == [parts[0]] + parts[1..];
  }

  /** Splitting at a separator between two strings splits each side. */
  lemma {:induction false} SplitAround(x: string, y: string, sep: char)
    ensures Split(x + [sep] + y, sep) == Split(x, sep) + Split(y, sep)
    decreases |x|
  {
    var i := IndexOf(x, sep);
    if i == -1 {
      SplitAroundBase(x, y, sep);
    } else {
      var a, b, c := [x[..i]], Split(x[i + 1..], sep), Split(y, sep);
      calc {
        Split(x + [sep] + y, sep);
        { SplitAroundStep(x, y, sep, i); }
        a + Split(x[i + 1..] + [sep] + y, sep);
        { SplitAround(x[i + 1..], y, sep); }
        a + (b + c);
        { assert a + (b + c) == (a + b) + c; }
        (a + b) + c;
        { SplitAt(x, sep, i); }
        Split(x, sep) + c;
      }
    }
  }

  lemma {:induction false} JoinLast(parts: seq<string>, sep: char)
    requires |parts| >= 2
    ensures Join(parts, sep) == Join(parts[..|parts| - 1], sep) + [sep] + Last(parts)
  {
    if |parts| > 2 {
      JoinLast(parts[1..], sep);
      assert parts[1..][..|parts[1..]| - 1] == parts[..|parts| - 1][1..];
    }
  }

  // ---------------------------------------------------------------------------
  // uploadImage: naming
  // ---------------------------------------------------------------------------

  /** `file.name.split('.').pop()`. */
  function FileExtension(name: string): string
  {
    Last(Split(name, '.'))
  }

  /** The extension is the text after the last '.', or the whole name when the
      name has no '.'. */
  lemma FileExtensionIsAfterLastDot(name: string)
    ensures '.' !in FileExtension(name)
    ensures '.' !in name ==> FileExtension(name) == name
    ensures '.' in name ==> exists stem :: name == stem + "." + FileExtension(name)
  {
    var parts := Split(name, '.');
    JoinSplit(name, '.');
    SplitPiecesFree(name, '.');
    if '.' in name {
      assert |parts| >= 2;
      JoinLast(parts, '.');
      var stem := Join(parts[..|parts| - 1], '.');
      assert name == stem + "." + FileExtension(name);
    }
  }

  /** The object path `public/<uniqueId>.<ext>` an upload stores the file at. */
  function ObjectPathFor(uniqueId: string, fileName: string): (path: string)
    ensures StartsWith(path, PUBLIC_FOLDER)
  {
    PUBLIC_FOLDER + uniqueId + "." + FileExtension(fileName)
  }

  /** The pathname of the public URL getPublicUrl gives for an object path. */
  function PublicUrl(path: string): string
  {
    Join(PREFIX_SEGMENTS, '/') + "/" + path
  }

  // ---------------------------------------------------------------------------
  // uploadImage: effect
  // ---------------------------------------------------------------------------

  /** What the store answers to the upload (`uploadError`) and whether
      getPublicUrl produced a URL. */
  datatype StorageReply = StorageReply(uploadError: Option<string>, publicUrlResolved: bool)

  datatype UploadResult = NoFile | Uploaded(url: string) | UploadFailed(message: string)

  datatype Upload = Upload(result: UploadResult, storage: set<string>)

  /** uploadImage(file) with the generated id and the store's reply given. */
  function UploadImage(file: Option<File>, uniqueId: string, storage: set<string>, reply: StorageReply): (u: Upload)
    ensures file.None? ==> u == Upload(NoFile, storage)
    ensures file.Some? ==> !u.result.NoFile?
    ensures u.result.Uploaded? ==>
      var path := ObjectPathFor(uniqueId, file.value.name);
      u.result.url == PublicUrl(path) && path !in storage && u.storage == storage + {path}
    ensures u.result.UploadFailed? ==>
      var path := ObjectPathFor(uniqueId, file.value.name);
      u.storage == storage || (path !in storage && u.storage == storage + {path})
  {
    if file.None? then Upload(NoFile, storage)
    else
      var path := ObjectPathFor(uniqueId, file.value.name);
      if path in storage then
        Upload(UploadFailed(UPLOAD_ERROR_PREFIX + ALREADY_EXISTS_MESSAGE), storage)
      else if reply.uploadError.Some? then
        Upload(UploadFailed(UPLOAD_ERROR_PREFIX + reply.uploadError.value), storage)
      else if !reply.publicUrlResolved then
        Upload(UploadFailed(PUBLIC_URL_FAILURE), storage + {path})
      else
        Upload(Uploaded(PublicUrl(path)), storage + {path})
  }

  /** The messages uploadImage rejects with. */
  predicate IsUploadFailure(message: string)
  {
    StartsWith(message, UPLOAD_ERROR_PREFIX) || message == PUBLIC_URL_FAILURE
  }

  /** What a failed upload raises is one of uploadImage's own messages. */
  lemma UploadFailureMessage(file: File, uniqueId: string, storage: set<string>, reply: StorageReply)
    ensures var u := UploadImage(Some(file), uniqueId, storage, reply);
      u.result.UploadFailed? ==> IsUploadFailure(u.result.message)
  {
    var u := UploadImage(Some(file), uniqueId, storage, reply);
    if u.result.UploadFailed? && u.result.message != PUBLIC_URL_FAILURE {
      if ObjectPathFor(uniqueId, file.name) in storage {
        StartsWithConcat(UPLOAD_ERROR_PREFIX, ALREADY_EXISTS_MESSAGE);
      } else {
        StartsWithConcat(UPLOAD_ERROR_PREFIX, reply.uploadError.value);
      }
    }
  }

  /** An upload succeeds exactly when the path is free, the store accepts the
      file and a public URL is produced; every failure is an error carrying a
      message, never a URL. */
  lemma UploadOutcome(file: File, uniqueId: string, storage: set<string>, reply: StorageReply)
    ensures var u := UploadImage(Some(file), uniqueId, storage, reply);
      u.result.Uploaded? <==>
        (ObjectPathFor(uniqueId, file.name) !in storage && reply.uploadError.None? && reply.publicUrlResolved)
    ensures var u := UploadImage(Some(file), uniqueId, storage, reply);
      reply.uploadError.Some? ==> u.result.UploadFailed? && u.storage == storage
  {
  }

  // ---------------------------------------------------------------------------
  // deleteImage
  // ---------------------------------------------------------------------------

  /** Where the object path was looked for in a URL's pathname. */
  datatype PathLookup = NoBucket | NotPublic(candidate: string) | ObjectPath(path: string)

  /** The segment search of deleteImage: the segments after the first one equal
      to the bucket name, joined by '/', must start with `public/`. */
  function LocateObject(pathname: string): (l: PathLookup)
    ensures l.ObjectPath? ==> StartsWith(l.path, PUBLIC_FOLDER)
    ensures l.NotPublic? ==> !StartsWith(l.candidate, PUBLIC_FOLDER)
    ensures l.NoBucket? <==> STORAGE_BUCKET !in Split(pathname, '/')
  {
    var segments := Split(pathname, '/');
    var bucketIndex := IndexOf(segments, STORAGE_BUCKET);
    if bucketIndex == -1 then NoBucket
    else
      var filePath := Join(segments[bucketIndex + 1..], '/');
      if !StartsWith(filePath, PUBLIC_FOLDER) then NotPublic(filePath)
      else ObjectPath(filePath)
  }

  /** The outcome of deleteImage: the path handed to `remove` (None when no
      remove was issued), the error it raises, and the bucket afterwards. */
  datatype Deletion = Deletion(removeIssued: Option<string>, error: Option<string>, storage: set<string>)

  /** An image URL as the site stores it: the public URL of an object that is
      in the bucket. */
  predicate Published(url: string, storage: set<string>)
  {
    LocateObject(url).ObjectPath? && LocateObject(url).path in storage && url == PublicUrl(LocateObject(url).path)
  }

  predicate AllPublished(urls: seq<string>, storage: set<string>)
  {
    forall u :: u in urls ==> Published(u, storage)
  }

  /** The path whose object a deleteImage call removes, given the store's
      reply to `remove`. */
  function RemovedPath(imageUrl: string, removeError: Option<string>): Option<string>
  {
    if imageUrl == "" then None else RemovedAt(LocateObject(imageUrl), removeError)
  }

  function RemovedAt(l: PathLookup, removeError: Option<string>): Option<string>
  {
    if l.ObjectPath? && removeError.None? then Some(l.path) else None
  }

  /** deleteImage(imageUrl), with the store's reply to `remove` given. */
  function DeleteImage(imageUrl: string, storage: set<string>, removeError: Option<string>): (d: Deletion)
    ensures imageUrl == "" ==> d == Deletion(None, None, storage)
    ensures d.storage == storage - (if RemovedPath(imageUrl, removeError).Some? then {RemovedPath(imageUrl, removeError).value} else {})
    ensures d.removeIssued.None? ==> d.error.None?
    ensures d.error.Some? <==>
      d.removeIssued.Some? && removeError.Some? && removeError.value != NOT_FOUND_MESSAGE
  {
    if imageUrl == "" then Deletion(None, None, storage)
    else DeleteAt(LocateObject(imageUrl), storage, removeError)
  }

  /** The rest of deleteImage once the path has been looked for. */
  function DeleteAt(l: PathLookup, storage: set<string>, removeError: Option<string>): (d: Deletion)
    ensures d.storage == storage - (if RemovedAt(l, removeError).Some? then {RemovedAt(l, removeError).value} else {})
    ensures d.removeIssued.None? ==> d.error.None?
    ensures d.error.Some? <==>
      d.removeIssued.Some? && removeError.Some? && removeError.value != NOT_FOUND_MESSAGE
  {
    match l
    case NoBucket => Deletion(None, None, storage)
    case NotPublic(_) => Deletion(None, None, storage)
    case ObjectPath(p) =>
      if removeError.None? then Deletion(Some(p), None, storage - {p})
      else if removeError.value == NOT_FOUND_MESSAGE then Deletion(Some(p), None, storage)
      else Deletion(Some(p), Some("Error al borrar la imagen: " + removeError.value), storage)
  }

  /** No remove is issued for a pathname without a bucket segment, nor for one
      whose extracted path lies outside `public/`. */
  lemma DeleteIssuesRemoveOnlyForPublicObjects(imageUrl: string, storage: set<string>, removeError: Option<string>)
    ensures var d := DeleteImage(imageUrl, storage, removeError);
      d.removeIssued.Some? <==> imageUrl != "" && LocateObject(imageUrl).ObjectPath?
    ensures var d := DeleteImage(imageUrl, storage, removeError);
      d.removeIssued.Some? ==> d.removeIssued.value == LocateObject(imageUrl).path
  {
  }

  lemma {:induction false} IndexOfConcatSeq(x: seq<string>, y: seq<string>, e: string)
    requires e in x
    ensures IndexOf(x + y, e) == IndexOf(x, e)
  {
    if x[0] != e {
      assert (x + y)[1..] == x[1..] + y;
      IndexOfConcatSeq(x[1..], y, e);
    }
  }

  /** The path in a public URL is found again by deleteImage's segment search:
      the URL an upload returns leads deleteImage back to the object. */
  lemma LocatePublicUrl(path: string)
    requires StartsWith(path, PUBLIC_FOLDER)
    ensures LocateObject(PublicUrl(path)) == ObjectPath(path)
  {
    var rest := Split(path, '/');
    PublicUrlSegments(path);
    BucketSegment(rest);
    assert (PREFIX_SEGMENTS + rest)[6..] == rest;
    JoinSplit(path, '/');
  }

  lemma PublicUrlSegments(path: string)
    ensures Split(PublicUrl(path), '/') == PREFIX_SEGMENTS + Split(path, '/')
  {
    var prefix := Join(PREFIX_SEGMENTS, '/');
    assert PublicUrl(path) == prefix + ['/'] + path;
    SplitAround(prefix, path, '/');
    PrefixSegmentsFree();
    SplitJoin(PREFIX_SEGMENTS, '/');
  }

  lemma PrefixSegmentsFree()
    ensures forall k :: 0 <= k < |PREFIX_SEGMENTS| ==> '/' !in PREFIX_SEGMENTS[k]
  {
  }

  lemma BucketSegment(rest: seq<string>)
    ensures IndexOf(PREFIX_SEGMENTS + rest, STORAGE_BUCKET) == 5
  {
    IndexOfConcatSeq(PREFIX_SEGMENTS, rest, STORAGE_BUCKET);
    IndexOfIs(PREFIX_SEGMENTS, STORAGE_BUCKET, 5);
  }

  /** Uploading a file and then deleting the URL the upload returned leaves the
      bucket as it was. */
  lemma UploadThenDelete(file: File, uniqueId: string, storage: set<string>, reply: StorageReply)
    requires UploadImage(Some(file), uniqueId, storage, reply).result.Uploaded?
    ensures var u := UploadImage(Some(file), uniqueId, storage, reply);
      DeleteImage(u.result.url, u.storage, None).storage == storage
  {
    var path := ObjectPathFor(uniqueId, file.name);
    LocatePublicUrl(path);
    assert PublicUrl(path) != "";
  }

  /** deleteImage is idempotent: deleting a URL a second time, when the store
      reports the object as not found, succeeds and changes nothing. */
  lemma DeleteIdempotent(imageUrl: string, storage: set<string>)
    ensures var once := DeleteImage(imageUrl, storage, None);
      var twice := DeleteImage(imageUrl, once.storage, Some(NOT_FOUND_MESSAGE));
      twice.error.None? && twice.storage == once.storage
    ensures var once := DeleteImage(imageUrl, storage, None);
      DeleteImage(imageUrl, once.storage, None).storage == once.storage
  {
  }
}
