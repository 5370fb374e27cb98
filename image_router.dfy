/** The `/image` upload and transcript-search routes. An upload stores one
    audio row for the request's transcript, then one file and one image row
    per frame; the directory of written files is a map from path to
    content. */
module ImageRouter {
  import opened Wrappers
  import opened Records
  import opened Seqs
  import opened Text
  import opened MediaStore
  import opened ImageRepo
  import opened AudioRepo

  /** The upload body, with the fields `upload_image` reads. */
  datatype ImageInput = ImageInput(
    frames: seq<string>, transcript: Option<string>, latitude: Option<real>, longitude: Option<real>)

  /** The `images/` directory as the route writes it. */
  class Disk {
    var files: map<string, string>

    constructor ()
      ensures files == map[]
    {
      files := map[];
    }
  }

  const AudioFailed := "Failed to process audio: "
  const DuplicateAudio := "UNIQUE constraint failed: audios.id"
  const NoImageData := "No image data provided"

  /** An exception that escapes the route: FastAPI's generic answer. */
  const InternalError := HttpError(500, "Internal Server Error")

  /** `f"{uuid.uuid4()}.b64"` for a given draw of the generator. */
  function FileName(random: nat): (name: string)
    ensures |name| == 40 && IsUuid4(name[..36]) && name[36..] == ".b64"
  {
    Uuid4(random) + ".b64"
  }

  /** `os.path.join("images", name)`. */
  function FilePath(name: string): string { "images/" + name }

  /** The row `create_image` stores for frame `i`: a fresh id, the frame's
      file, no description, no tags, untagged, the shared audio link and the
      request's coordinates. */
  function FrameRow(data: ImageInput, audioId: string, i: nat, fileRandom: nat -> nat, rowRandom: nat -> nat,
                    rowTime: nat -> int): ImageRecord
  {
    ImageRecord(Uuid4(rowRandom(i)), rowTime(i), false, None, None, [], FileName(fileRandom(i)),
                Some(audioId), data.latitude, data.longitude)
  }

  function FrameRows(data: ImageInput, audioId: string, fileRandom: nat -> nat, rowRandom: nat -> nat,
                     rowTime: nat -> int): (rows: seq<ImageRecord>)
    ensures |rows| == |data.frames|
  {
    seq(|data.frames|, (i: int) requires 0 <= i < |data.frames| => FrameRow(data, audioId, i, fileRandom, rowRandom, rowTime))
  }

  /** Every row of an upload starts untagged, without description or tags,
      under a version-4 id, with its own `.b64` file, the shared audio link
      and the request's coordinates. */
  lemma FrameRowsFacts(data: ImageInput, audioId: string, fileRandom: nat -> nat, rowRandom: nat -> nat,
                       rowTime: nat -> int)
    ensures var rows := FrameRows(data, audioId, fileRandom, rowRandom, rowTime);
      forall i | 0 <= i < |rows| ::
        IsUuid4(rows[i].id) && !rows[i].tagged && rows[i].description.None? && rows[i].tags == []
        && rows[i].embeddings.None? && rows[i].path == FileName(fileRandom(i))
        && rows[i].audioId == Some(audioId)
        && rows[i].latitude == data.latitude && rows[i].longitude == data.longitude
  {
  }

  /** The file path of each of the first `n` frames. */
  function FramePaths(fileRandom: nat -> nat, n: nat): (paths: seq<string>)
    ensures |paths| == n
  {
    seq(n, (i: int) requires 0 <= i < n => FilePath(FileName(fileRandom(i))))
  }

  /** Different names give different paths. */
  lemma FilePathInjective(a: string, b: string)
    ensures FilePath(a) == FilePath(b) ==> a == b
  {
    assert FilePath(a)[7..] == a && FilePath(b)[7..] == b;
  }

  /** The directory after the first `n` frames have been written. */
  function Written(files: map<string, string>, frames: seq<string>, paths: seq<string>, n: nat): map<string, string>
    requires n <= |frames| && n <= |paths|
  {
    if n == 0 then files
    else Written(files, frames, paths, n - 1)[paths[n - 1] := frames[n - 1]]
  }

  /** After `n` writes the directory holds the old files and the first `n`
      frame paths, and nothing else. */
  lemma {:induction false} WrittenFiles(files: map<string, string>, frames: seq<string>, paths: seq<string>, n: nat)
    requires n <= |frames| && n <= |paths|
    ensures var r := Written(files, frames, paths, n);
      (forall f | f in r :: f in files || exists k | 0 <= k < n :: paths[k] == f)
      && (forall f | f in files :: f in r)
      && (forall k | 0 <= k < n :: paths[k] in r)
  {
    if n > 0 {
      WrittenFiles(files, frames, paths, n - 1);
    }
  }

  /** Once the frames are written, each frame's file holds that frame when
      the paths differ. */
  lemma {:induction false} WrittenHoldsFrame(files: map<string, string>, frames: seq<string>, paths: seq<string>,
                                             n: nat, i: nat)
    requires i < n <= |frames| && n <= |paths|
    requires forall j, k | 0 <= j < k < n :: paths[j] != paths[k]
    ensures paths[i] in Written(files, frames, paths, n)
    ensures Written(files, frames, paths, n)[paths[i]] == frames[i]
  {
    if i < n - 1 {
      WrittenHoldsFrame(files, frames, paths, n - 1, i);
    }
  }

  /** Writing frames adds files and leaves every other path as it was. */
  lemma {:induction false} WrittenKeepsOthers(files: map<string, string>, frames: seq<string>, paths: seq<string>,
                                              n: nat, path: string)
    requires n <= |frames| && n <= |paths|
    requires forall j | 0 <= j < n :: path != paths[j]
    ensures path in Written(files, frames, paths, n) <==> path in files
    ensures path in files ==> Written(files, frames, paths, n)[path] == files[path]
  {
    if n > 0 {
      WrittenKeepsOthers(files, frames, paths, n - 1, path);
    }
  }

  /** Row `j` cannot be stored after the table and the rows before it:
      its id is taken. */
  predicate Clashes(table: seq<ImageRecord>, rows: seq<ImageRecord>, j: nat)
    requires j < |rows|
  {
    HasKey(table + rows[..j], ImageId, rows[j].id)
  }

  /** The index of the first row from `i` on that clashes, or `|rows|` when
      there is none. */
  function FirstClash(table: seq<ImageRecord>, rows: seq<ImageRecord>, i: nat): (k: nat)
    requires i <= |rows|
    ensures i <= k <= |rows|
    decreases |rows| - i
  {
    if i == |rows| then i
    else if Clashes(table, rows, i) then i
    else FirstClash(table, rows, i + 1)
  }

  /** No row from `i` up to `FirstClash` clashes, and the one there does
      unless it is the end. */
  lemma {:induction false} FirstClashIsFirst(table: seq<ImageRecord>, rows: seq<ImageRecord>, i: nat)
    requires i <= |rows|
    ensures var k := FirstClash(table, rows, i);
      (forall j | i <= j < k :: !Clashes(table, rows, j)) && (k < |rows| ==> Clashes(table, rows, k))
    decreases |rows| - i
  {
    if i < |rows| && !Clashes(table, rows, i) {
      FirstClashIsFirst(table, rows, i + 1);
    }
  }

  /** The loop's state: rows and files stored so far, and after a clash
      one more file than rows. */
  ghost predicate StoredPrefix(images0: seq<ImageRecord>, rows: seq<ImageRecord>, files0: map<string, string>,
                               frames: seq<string>, paths: seq<string>, i: nat, failed: bool,
                               images: seq<ImageRecord>, files: map<string, string>)
    requires i <= |rows| && |rows| == |frames| == |paths|
  {
    if failed then
      i < |rows| && i == FirstClash(images0, rows, 0) && images == images0 + rows[..i]
      && files == Written(files0, frames, paths, i + 1)
    else
      images == images0 + rows[..i] && files == Written(files0, frames, paths, i)
  }

  /** When the loop ends, the stored rows are those before the first clash
      and the files one more than those whenever there is a clash. */
  lemma FramesOutcome(images0: seq<ImageRecord>, rows: seq<ImageRecord>, files0: map<string, string>,
                      frames: seq<string>, paths: seq<string>, i: nat, failed: bool,
                      images: seq<ImageRecord>, files: map<string, string>)
    requires i <= |rows| && |rows| == |frames| == |paths|
    requires failed || i == |rows|
    requires i <= FirstClash(images0, rows, 0)
    requires StoredPrefix(images0, rows, files0, frames, paths, i, failed, images, files)
    ensures var k := FirstClash(images0, rows, 0);
      images == images0 + rows[..k]
      && files == Written(files0, frames, paths, if k < |rows| then k + 1 else k)
      && (failed <==> k < |rows|)
  {
  }

  /** One turn of the loop, over values: after frame `i` is written and
      its row offered to the table, either the stored prefix and the
      written files grow by one, or row `i` is the first clash. */
  lemma FrameStep(images0: seq<ImageRecord>, rows: seq<ImageRecord>, files0: map<string, string>,
                  frames: seq<string>, paths: seq<string>, i: nat,
                  files: map<string, string>, images: seq<ImageRecord>, created: Result<ImageRecord, DbError>)
    requires i < |rows| && |rows| == |frames| == |paths| && i <= FirstClash(images0, rows, 0)
    requires files == Written(files0, frames, paths, i)[paths[i] := frames[i]]
    requires created.Failure? <==> HasKey(images0 + rows[..i], ImageId, rows[i].id)
    requires created.Failure? ==> images == images0 + rows[..i]
    requires created.Success? ==> created.value == rows[i] && images == images0 + rows[..i] + [rows[i]]
    ensures created.Success? ==> i < FirstClash(images0, rows, 0)
    ensures var next := if created.Failure? then i else i + 1;
      StoredPrefix(images0, rows, files0, frames, paths, next, created.Failure?, images, files)
  {
    FirstClashIsFirst(images0, rows, 0);
    assert created.Failure? <==> Clashes(images0, rows, i);
    assert rows[..i + 1] == rows[..i] + [rows[i]];
  }

  /** One turn of the loop of `upload_image`: frame `i` is written to its
      file, then stored as a row. */
  method StoreFrame(repo: ImageRepository, disk: Disk, data: ImageInput, audioId: string,
                    fileRandom: nat -> nat, rowRandom: nat -> nat, rowTime: nat -> int, i: nat)
    returns (created: Result<ImageRecord, DbError>)
    requires i < |data.frames| && repo.store.Valid()
    modifies repo.store, disk
    ensures repo.store.Valid()
    ensures repo.store.videos == old(repo.store.videos) && repo.store.audios == old(repo.store.audios)
    ensures disk.files == old(disk.files)[FilePath(FileName(fileRandom(i))) := data.frames[i]]
    ensures var row := FrameRow(data, audioId, i, fileRandom, rowRandom, rowTime);
      (created.Failure? <==> HasKey(old(repo.store.images), ImageId, row.id))
      && (created.Failure? ==> repo.store.images == old(repo.store.images))
      && (created.Success? ==> created.value == row && repo.store.images == old(repo.store.images) + [row])
  {
    var name := FileName(fileRandom(i));
    disk.files := disk.files[FilePath(name) := data.frames[i]];
    created := repo.CreateImage(rowRandom(i), rowTime(i), name, None, Some([]), None, false,
                                Some(audioId), data.latitude, data.longitude);
  }

  /** `StoreFrame` seen from the loop: from a state where the first `i`
      rows and files are stored, it stores one more of each or reports the
      first clash. */
  method StoreFrameStep(repo: ImageRepository, disk: Disk, data: ImageInput, audioId: string,
                        fileRandom: nat -> nat, rowRandom: nat -> nat, rowTime: nat -> int, i: nat,
                        ghost images0: seq<ImageRecord>, ghost files0: map<string, string>)
    returns (created: Result<ImageRecord, DbError>)
    requires i < |data.frames| && repo.store.Valid()
    requires i <= FirstClash(images0, FrameRows(data, audioId, fileRandom, rowRandom, rowTime), 0)
    requires StoredPrefix(images0, FrameRows(data, audioId, fileRandom, rowRandom, rowTime), files0, data.frames,
                          FramePaths(fileRandom, |data.frames|), i, false, repo.store.images, disk.files)
    modifies repo.store, disk
    ensures repo.store.Valid()
    ensures repo.store.videos == old(repo.store.videos) && repo.store.audios == old(repo.store.audios)
    ensures var rows := FrameRows(data, audioId, fileRandom, rowRandom, rowTime);
      (created.Success? ==> i < FirstClash(images0, rows, 0) && created.value == rows[i])
      && StoredPrefix(images0, rows, files0, data.frames, FramePaths(fileRandom, |data.frames|),
                      if created.Failure? then i else i + 1, created.Failure?, repo.store.images, disk.files)
  {
    ghost var rows := FrameRows(data, audioId, fileRandom, rowRandom, rowTime);
    ghost var paths := FramePaths(fileRandom, |data.frames|);
    created := StoreFrame(repo, disk, data, audioId, fileRandom, rowRandom, rowTime, i);
    FrameStep(images0, rows, files0, data.frames, paths, i, disk.files, repo.store.images, created);
  }

  /** The loop of `upload_image`: a row whose id is taken raises out of
      the route (500), leaving the rows and files made so far. Otherwise
      the answer is the last frame's row. */
  method StoreFrames(repo: ImageRepository, disk: Disk, data: ImageInput, audioId: string,
                     fileRandom: nat -> nat, rowRandom: nat -> nat, rowTime: nat -> int)
    returns (r: Result<ImageRecord, HttpError>)
    requires repo.store.Valid() && data.frames != []
    modifies repo.store, disk
    ensures repo.store.Valid()
    ensures repo.store.videos == old(repo.store.videos) && repo.store.audios == old(repo.store.audios)
    ensures var rows := FrameRows(data, audioId, fileRandom, rowRandom, rowTime);
      var k := FirstClash(old(repo.store.images), rows, 0);
      repo.store.images == old(repo.store.images) + rows[..k]
      && disk.files == Written(old(disk.files), data.frames, FramePaths(fileRandom, |rows|),
                               if k < |rows| then k + 1 else k)
      && r == if k < |rows| then Failure(InternalError) else Success(rows[|rows| - 1])
  {
    ghost var images0 := repo.store.images;
    ghost var files0 := disk.files;
    ghost var rows := FrameRows(data, audioId, fileRandom, rowRandom, rowTime);
    ghost var paths := FramePaths(fileRandom, |rows|);
    ghost var k := FirstClash(images0, rows, 0);
    var record: Option<ImageRecord> := None;
    var failed := false;
    var i := 0;
    while i < |data.frames| && !failed
      invariant 0 <= i <= |data.frames| && i <= k
      invariant repo.store.Valid()
      invariant repo.store.videos == old(repo.store.videos) && repo.store.audios == old(repo.store.audios)
      invariant StoredPrefix(images0, rows, files0, data.frames, paths, i, failed, repo.store.images, disk.files)
      invariant !failed && i > 0 ==> record == Some(rows[i - 1])
      decreases |data.frames| - i, !failed
    {
      var created := StoreFrameStep(repo, disk, data, audioId, fileRandom, rowRandom, rowTime, i, images0, files0);
      if created.Failure? {
        failed := true;
      } else {
        i := i + 1;
        record := Some(created.value);
      }
    }
    FramesOutcome(images0, rows, files0, data.frames, paths, i, failed, repo.store.images, disk.files);
    if failed {
      r := Failure(InternalError);
    } else {
      r := Success(record.value);
    }
  }

  /** `upload_image`. The audio row comes first, so a duplicate audio id is
      a 400 before anything is written, and an empty frame list is a 400
      after the audio row exists; then the frames are stored. */
  method UploadImage(repo: ImageRepository, audioRepo: AudioRepository, disk: Disk, data: ImageInput,
                     audioRandom: nat, audioTime: int,
                     fileRandom: nat -> nat, rowRandom: nat -> nat, rowTime: nat -> int)
    returns (r: Result<ImageRecord, HttpError>)
    requires repo.store == audioRepo.store && repo.store.Valid()
    modifies repo.store, disk
    ensures repo.store.Valid()
    ensures repo.store.videos == old(repo.store.videos)
    ensures HasKey(old(repo.store.audios), AudioId, Uuid4(audioRandom)) ==>
      r == Failure(HttpError(400, AudioFailed + DuplicateAudio))
      && repo.store.audios == old(repo.store.audios) && repo.store.images == old(repo.store.images)
      && disk.files == old(disk.files)
    ensures !HasKey(old(repo.store.audios), AudioId, Uuid4(audioRandom)) ==>
      repo.store.audios == old(repo.store.audios) + [AudioRecord(Uuid4(audioRandom), audioTime, data.transcript, None)]
    ensures !HasKey(old(repo.store.audios), AudioId, Uuid4(audioRandom)) && data.frames == [] ==>
      r == Failure(HttpError(400, NoImageData))
      && repo.store.images == old(repo.store.images) && disk.files == old(disk.files)
    ensures !HasKey(old(repo.store.audios), AudioId, Uuid4(audioRandom)) && data.frames != [] ==>
      var rows := FrameRows(data, Uuid4(audioRandom), fileRandom, rowRandom, rowTime);
      var k := FirstClash(old(repo.store.images), rows, 0);
      repo.store.images == old(repo.store.images) + rows[..k]
      && disk.files == Written(old(disk.files), data.frames, FramePaths(fileRandom, |rows|),
                               if k < |rows| then k + 1 else k)
      && r == if k < |rows| then Failure(InternalError) else Success(rows[|rows| - 1])
  {
    var audio := audioRepo.CreateAudio(audioRandom, audioTime, data.transcript);
    if audio.Failure? {
      return Failure(HttpError(400, AudioFailed + DuplicateAudio));
    }
    if data.frames == [] {
      return Failure(HttpError(400, NoImageData));
    }
    r := StoreFrames(repo, disk, data, audio.value.id, fileRandom, rowRandom, rowTime);
  }

  /** After an upload whose file names differ, each stored row's file
      holds its own frame. */
  lemma UploadedFilesHoldFrames(files: map<string, string>, data: ImageInput, audioId: string,
                                fileRandom: nat -> nat, rowRandom: nat -> nat, rowTime: nat -> int)
    requires forall j, k | 0 <= j < k < |data.frames| :: FileName(fileRandom(j)) != FileName(fileRandom(k))
    ensures var rows := FrameRows(data, audioId, fileRandom, rowRandom, rowTime);
      var disk := Written(files, data.frames, FramePaths(fileRandom, |rows|), |rows|);
      forall i | 0 <= i < |rows| :: FilePath(rows[i].path) in disk && disk[FilePath(rows[i].path)] == data.frames[i]
  {
    var rows := FrameRows(data, audioId, fileRandom, rowRandom, rowTime);
    var paths := FramePaths(fileRandom, |rows|);
    forall j, k | 0 <= j < k < |rows| ensures paths[j] != paths[k] {
      FilePathInjective(FileName(fileRandom(j)), FileName(fileRandom(k)));
    }
    forall i | 0 <= i < |rows|
      ensures FilePath(rows[i].path) in Written(files, data.frames, paths, |rows|)
      ensures Written(files, data.frames, paths, |rows|)[FilePath(rows[i].path)] == data.frames[i]
    {
      WrittenHoldsFrame(files, data.frames, paths, |rows|, i);
    }
  }

  /** `get_images_by_transcript`: a blank transcript is a 400; otherwise at
      most 50 images are asked for. */
  method GetImagesByTranscript(repo: ImageRepository, transcript: string, embed: string -> Option<seq<real>>,
                               sqrt: real -> real, limit: int := 50)
    returns (r: Result<seq<ImageRecord>, HttpError>)
    ensures r.Failure? <==> AllSpace(transcript)
    ensures r.Failure? ==> r.error == HttpError(400, "Audio transcript cannot be empty")
    ensures r.Success? ==> forall x | x in r.value :: x in repo.store.images
    ensures r.Success? && limit >= 0 ==> |r.value| <= limit && |r.value| <= 50
    ensures r.Success? && limit != 0 && repo.store.images != [] ==> r.value != []
    ensures var q := Embedding.GenerateTextEmbedding(transcript, embed);
      r.Success? && (q.None? || q.value == []) ==> r.value == repo.GetAllImages(0, Min(limit, 50))
    ensures var q := Embedding.GenerateTextEmbedding(transcript, embed);
      r.Success? && q.Some? && q.value != [] ==>
        var ranked := ImagesOf(Take(SortDesc(ScoreRows(JoinRows(repo.store.images, repo.store.audios), q.value, sqrt), Score), Min(limit, 50)));
        r.value == if ranked == [] then repo.GetAllImages(0, Min(limit, 50)) else ranked
  {
    if Strip(transcript) == "" {
      return Failure(HttpError(400, "Audio transcript cannot be empty"));
    }
    var images := repo.GetImagesByAudio(transcript, embed, sqrt, Min(limit, 50));
    r := Success(images);
  }
}
