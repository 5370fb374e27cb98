/** The `/video` routes: query parameter checks in front of the video
    repository, and the two routes that write (`POST /video/` and
    `PUT /video/{id}`). Every exception inside `create_video` and
    `update_video` becomes a 400 whose detail starts with the route's
    prefix. */
module VideoRouter {
  import opened Wrappers
  import opened Records
  import opened Seqs
  import opened Text
  import opened MediaStore
  import opened VideoRepo
  import opened AudioRepo
  import ApiModels

  const CreateFailed := "Failed to create video: "
  const UpdateFailed := "Failed to update video: "

  /** Python's message for `f(**d)` when a key of `d` is not a string. */
  const KeywordsMustBeStrings := "keywords must be strings"

  /** Python's message for the keyword `create_video` does not declare. */
  const UnexpectedDescription := "create_video() got an unexpected keyword argument 'description'"

  /** `json` cannot encode the `FieldInfo` that the default `frames` holds. */
  const FramesNotSerializable := "Object of type FieldInfo is not JSON serializable"

  // ---------------------------------------------------------------------
  // `GET /video/search/by-tags`: the comma-separated tag list.

  predicate NonBlank(s: string) { s != "" }

  function StripAll(parts: seq<string>): (r: seq<string>)
    ensures |r| == |parts| && forall i | 0 <= i < |parts| :: r[i] == Strip(parts[i])
  {
    seq(|parts|, i requires 0 <= i < |parts| => Strip(parts[i]))
  }

  /** `[tag.strip() for tag in tags.split(",") if tag.strip()]`. */
  function TagList(tags: string): seq<string> {
    Filter(StripAll(Split(tags, ',')), NonBlank)
  }

  /** Stripping a piece is idempotent and adds no character. */
  lemma StrippedPiece(p: string, c: char)
    requires c !in p
    ensures Strip(Strip(p)) == Strip(p) && c !in Strip(p)
  {
    StripIdempotent(p);
  }

  /** Every tag of the list is non-empty, has no surrounding whitespace and
      no comma, and is the stripped form of a piece of the query. */
  lemma TagListSound(tags: string)
    ensures forall t | t in TagList(tags) :: t != "" && Strip(t) == t && ',' !in t
    ensures forall t | t in TagList(tags) :: exists p | p in Split(tags, ',') :: Strip(p) == t
    ensures |TagList(tags)| <= |Split(tags, ',')|
  {
    var parts := Split(tags, ',');
    var stripped := StripAll(parts);
    forall t | t in TagList(tags)
      ensures t != "" && Strip(t) == t && ',' !in t
      ensures exists p | p in parts :: Strip(p) == t
    {
      var i :| 0 <= i < |stripped| && stripped[i] == t;
      assert parts[i] in parts;
      StrippedPiece(parts[i], ',');
    }
  }

  /** Every piece of the query that is not blank contributes its stripped
      form. */
  lemma TagListComplete(tags: string)
    ensures forall p | p in Split(tags, ',') && !AllSpace(p) :: Strip(p) in TagList(tags)
  {
    var parts := Split(tags, ',');
    var stripped := StripAll(parts);
    forall p | p in parts && !AllSpace(p) ensures Strip(p) in TagList(tags) {
      var i :| 0 <= i < |parts| && parts[i] == p;
      assert stripped[i] == Strip(p);
      assert Strip(p) in stripped;
    }
  }

  /** The tag query: 400 when no tag is left. */
  function ParseTags(tags: string): (r: Result<seq<string>, HttpError>)
    ensures r.Failure? <==> forall p | p in Split(tags, ',') :: AllSpace(p)
    ensures r.Failure? ==> r.error == HttpError(400, "At least one tag must be provided")
    ensures r.Success? ==> r.value == TagList(tags) && r.value != []
  {
    TagListSound(tags);
    TagListComplete(tags);
    var tagList := TagList(tags);
    if tagList == [] then
      assert forall p | p in Split(tags, ',') :: AllSpace(p);
      Failure(HttpError(400, "At least one tag must be provided"))
    else
      assert tagList[0] in tagList;
      Success(tagList)
  }

  method SearchVideosByTagsRoute(repo: VideoRepository, tags: string, skip: int := 0, limit: int := 100)
    returns (r: Result<seq<VideoRecord>, HttpError>)
    ensures r.Failure? <==> ParseTags(tags).Failure?
    ensures r.Failure? ==> r.error == ParseTags(tags).error
    ensures r.Success? ==> r.value == Filter(repo.GetAllVideos(skip, limit), VideoRepo.SharesTagWith(TagList(tags)))
    ensures r.Success? ==> forall v | v in r.value :: v in repo.store.videos && VideoRepo.SharesTag(v, TagList(tags))
  {
    var parsed := ParseTags(tags);
    if parsed.Failure? {
      return Failure(parsed.error);
    }
    var videos := repo.SearchVideosByTags(parsed.value, skip, limit);
    r := Success(videos);
  }

  // ---------------------------------------------------------------------
  // The duration and frame-count bounds.

  /** The three checks of a range query, in order; `what` names the bound
      in the messages ("duration" or "frame count"). */
  function BoundsError(lo: Option<real>, hi: Option<real>, what: string): (e: Option<HttpError>)
    ensures e.None? <==> NonNegativeBound(lo) && NonNegativeBound(hi) && !(lo.Some? && hi.Some? && lo.value > hi.value)
    ensures e.Some? ==> e.value.status == 400
    ensures lo.Some? && lo.value < 0.0 ==> e == Some(HttpError(400, "Minimum " + what + " must be non-negative"))
    ensures NonNegativeBound(lo) && hi.Some? && hi.value < 0.0 ==>
      e == Some(HttpError(400, "Maximum " + what + " must be non-negative"))
  {
    if lo.Some? && lo.value < 0.0 then Some(HttpError(400, "Minimum " + what + " must be non-negative"))
    else if hi.Some? && hi.value < 0.0 then Some(HttpError(400, "Maximum " + what + " must be non-negative"))
    else if lo.Some? && hi.Some? && lo.value > hi.value then
      Some(HttpError(400, "Minimum " + what + " cannot be greater than maximum " + what))
    else None
  }

  predicate NonNegativeBound(b: Option<real>) { b.None? || b.value >= 0.0 }

  /** Equal bounds are accepted, and so are missing ones. */
  lemma EqualBoundsAccepted(x: real, what: string)
    requires x >= 0.0
    ensures BoundsError(Some(x), Some(x), what).None?
    ensures BoundsError(None, None, what).None?
    ensures BoundsError(Some(x), None, what).None? && BoundsError(None, Some(x), what).None?
  {
  }

  /** A bound given as an int, compared as a number. */
  function AsReal(b: Option<int>): Option<real> {
    if b.Some? then Some(b.value as real) else None
  }

  function SearchVideosByDurationRoute(repo: VideoRepository, minDuration: Option<real>, maxDuration: Option<real>,
                                       skip: int := 0, limit: int := 100): (r: Result<seq<VideoRecord>, HttpError>)
    reads repo.store
    ensures r.Failure? <==> BoundsError(minDuration, maxDuration, "duration").Some?
    ensures r.Failure? ==> r.error.status == 400
    ensures r.Success? ==> r.value == repo.GetVideosByDurationRange(minDuration, maxDuration, skip, limit)
    ensures r.Success? ==> forall v | v in r.value :: v in repo.store.videos && InDurationRange(v, minDuration, maxDuration)
    ensures r.Success? ==> SortedDesc(r.value, VideoTime) && (limit >= 0 ==> |r.value| <= limit)
    ensures r.Success? && skip <= 0 && limit < 0 ==>
      forall v | v in repo.store.videos && InDurationRange(v, minDuration, maxDuration) :: v in r.value
  {
    var e := BoundsError(minDuration, maxDuration, "duration");
    if e.Some? then Failure(e.value)
    else Success(repo.GetVideosByDurationRange(minDuration, maxDuration, skip, limit))
  }

  method SearchVideosByFrameCountRoute(repo: VideoRepository, minFrames: Option<int>, maxFrames: Option<int>,
                                       skip: int := 0, limit: int := 100)
    returns (r: Result<seq<VideoRecord>, HttpError>)
    ensures r.Failure? <==> (minFrames.Some? && minFrames.value < 0) || (maxFrames.Some? && maxFrames.value < 0)
                            || (minFrames.Some? && maxFrames.Some? && minFrames.value > maxFrames.value)
    ensures r.Failure? ==> r.error == BoundsError(AsReal(minFrames), AsReal(maxFrames), "frame count").value
    ensures r.Success? ==> r.value == Filter(repo.GetAllVideos(skip, limit), FramesBetween(minFrames, maxFrames))
    ensures r.Success? ==> forall v | v in r.value :: v in repo.store.videos && InFrameRange(v, minFrames, maxFrames)
  {
    var e := BoundsError(AsReal(minFrames), AsReal(maxFrames), "frame count");
    if e.Some? {
      return Failure(e.value);
    }
    var videos := repo.GetVideosByFrameCountRange(minFrames, maxFrames, skip, limit);
    r := Success(videos);
  }

  // ---------------------------------------------------------------------
  // `GET /video/` and `GET /video/{id}`.

  /** `tagged_only` True, False or None selects the tagged, untagged or
      complete listing. */
  function GetVideosRoute(repo: VideoRepository, skip: int, limit: int, taggedOnly: Option<bool>): (r: seq<VideoRecord>)
    reads repo.store
    ensures taggedOnly == Some(true) ==> r == repo.GetTaggedVideos(skip, limit)
    ensures taggedOnly == Some(false) ==> r == repo.GetUntaggedVideos(skip, limit)
    ensures taggedOnly.None? ==> r == repo.GetAllVideos(skip, limit)
    ensures taggedOnly == Some(true) ==> forall v | v in r :: v in repo.store.videos && v.tagged
    ensures taggedOnly == Some(false) ==> forall v | v in r :: v in repo.store.videos && !v.tagged
    ensures taggedOnly.None? ==> multiset(r) <= multiset(repo.store.videos)
    ensures SortedDesc(r, VideoTime) && (limit >= 0 ==> |r| <= limit)
  {
    match taggedOnly
    case Some(true) => repo.GetTaggedVideos(skip, limit)
    case Some(false) => repo.GetUntaggedVideos(skip, limit)
    case None => repo.GetAllVideos(skip, limit)
  }

  /** Without paging, the tagged and the untagged listings together are as
      long as the complete one. */
  lemma ListingsPartition(repo: VideoRepository)
    ensures |GetVideosRoute(repo, 0, -1, Some(true))| + |GetVideosRoute(repo, 0, -1, Some(false))|
         == |GetVideosRoute(repo, 0, -1, None)|
  {
    VideoRepo.CountsPartition(repo);
  }

  function GetVideoRoute(repo: VideoRepository, videoId: string): (r: Result<VideoRecord, HttpError>)
    reads repo.store
    ensures r.Success? <==> exists v | v in repo.store.videos :: v.id == videoId
    ensures r.Success? ==> r.value in repo.store.videos && r.value.id == videoId
    ensures r.Failure? ==> r.error == HttpError(404, "Video not found")
  {
    match repo.GetVideoById(videoId)
    case Some(v) => Success(v)
    case None => Failure(HttpError(404, "Video not found"))
  }

  // ---------------------------------------------------------------------
  // `POST /video/`.

  /** Whether the audio step stores a row: the audio is non-empty, its
      transcription succeeds and the drawn id is free. */
  predicate AudioStored(audios: seq<AudioRecord>, audio: string, transcribe: string -> Result<Option<string>, string>,
                        random: nat)
  {
    audio != "" && transcribe(audio).Success? && !HasKey(audios, AudioId, Uuid4(random))
  }

  /** The audio table after the audio step. */
  function AudiosAfter(audios: seq<AudioRecord>, audio: string, transcribe: string -> Result<Option<string>, string>,
                       random: nat, now: int): seq<AudioRecord>
  {
    if AudioStored(audios, audio, transcribe, random)
    then audios + [AudioRecord(Uuid4(random), now, transcribe(audio).value, None)]
    else audios
  }

  /** The audio step shared by both versions of `create_video`: a
      non-empty `audio` is decoded and transcribed (`transcribe` stands for
      both and fails with the exception text) and stored; any failure is
      swallowed and leaves the video without audio. */
  method StoreAudio(audioRepo: AudioRepository, audio: string, transcribe: string -> Result<Option<string>, string>,
                    random: nat, now: int)
    returns (audioId: Option<string>)
    requires audioRepo.store.Valid()
    modifies audioRepo.store
    ensures audioRepo.store.Valid()
    ensures audioRepo.store.images == old(audioRepo.store.images)
    ensures audioRepo.store.videos == old(audioRepo.store.videos)
    ensures audioId.Some? <==>
      audio != "" && transcribe(audio).Success? && !HasKey(old(audioRepo.store.audios), AudioId, Uuid4(random))
    ensures audioId.None? ==> audioRepo.store.audios == old(audioRepo.store.audios)
    ensures audioId.Some? ==>
      audioRepo.store.audios == old(audioRepo.store.audios) + [AudioRecord(audioId.value, now, transcribe(audio).value, None)]
      && audioId.value == Uuid4(random)
  {
    audioId := None;
    if audio != "" {
      var transcription := transcribe(audio);
      if transcription.Success? {
        var created := audioRepo.CreateAudio(random, now, transcription.value);
        if created.Success? {
          audioId := Some(created.value.id);
        }
      }
    }
  }

  /** `create_video` as written: the audio record is stored, then the call
      to the repository passes `description=`, which it does not declare,
      so every request ends in 400 and no video is stored. */
  method CreateVideoRouteAsWritten(videoRepo: VideoRepository, audioRepo: AudioRepository,
                                   body: ApiModels.VideoCreate,
                                   transcribe: string -> Result<Option<string>, string>, random: nat, now: int)
    returns (r: Result<VideoRecord, HttpError>)
    requires videoRepo.store == audioRepo.store && audioRepo.store.Valid()
    modifies audioRepo.store
    ensures audioRepo.store.Valid()
    ensures audioRepo.store.videos == old(audioRepo.store.videos)
    ensures audioRepo.store.images == old(audioRepo.store.images)
    ensures audioRepo.store.audios == AudiosAfter(old(audioRepo.store.audios), body.audio, transcribe, random, now)
    ensures r == Failure(HttpError(400, CreateFailed + UnexpectedDescription))
  {
    var audioId := StoreAudio(audioRepo, body.audio, transcribe, random, now);
    r := Failure(HttpError(400, CreateFailed + UnexpectedDescription));
  }

  /** `create_video` once the repository takes the description: the audio
      step, then one new video row carrying the body's fields and the new
      audio id. A default `frames` cannot be stored. */
  method CreateVideoRoute(videoRepo: VideoRepository, audioRepo: AudioRepository, body: ApiModels.VideoCreate,
                          transcribe: string -> Result<Option<string>, string>,
                          audioRandom: nat, videoRandom: nat, now: int)
    returns (r: Result<VideoRecord, HttpError>)
    requires videoRepo.store == audioRepo.store && audioRepo.store.Valid()
    modifies audioRepo.store
    ensures audioRepo.store.Valid()
    ensures audioRepo.store.images == old(audioRepo.store.images)
    ensures audioRepo.store.audios == AudiosAfter(old(audioRepo.store.audios), body.audio, transcribe, audioRandom, now)
    ensures r.Failure? <==> body.frames.FieldTuple? || HasKey(old(audioRepo.store.videos), VideoId, Uuid4(videoRandom))
    ensures r.Failure? ==> r.error.status == 400 && audioRepo.store.videos == old(audioRepo.store.videos)
    ensures r.Success? ==> audioRepo.store.videos == old(audioRepo.store.videos) + [r.value]
    ensures r.Success? ==> var v := r.value; var b := body.base;
      v.frames == Some(body.frames.frames) && v.description == b.description && v.tags == b.tags
      && v.tagged == b.tagged && v.fps == b.fps
      && v.duration == StoredDuration(body.frames.frames, b.fps, b.duration)
      && v.latitude == b.latitude && v.longitude == b.longitude && v.timestamp == now
      && v.audioId == (if AudioStored(old(audioRepo.store.audios), body.audio, transcribe, audioRandom)
                       then Some(Uuid4(audioRandom)) else None)
  {
    var audioId := StoreAudio(audioRepo, body.audio, transcribe, random := audioRandom, now := now);
    if body.frames.FieldTuple? {
      return Failure(HttpError(400, CreateFailed + FramesNotSerializable));
    }
    var b := body.base;
    var created := videoRepo.CreateDescribedVideo(videoRandom, now, body.frames.frames, b.tagged, Some(b.tags), b.fps,
                                                  b.duration, audioId, b.latitude, b.longitude, b.description);
    if created.Failure? {
      return Failure(HttpError(400, CreateFailed + "UNIQUE constraint failed: videos.id"));
    }
    r := Success(created.value);
  }

  // ---------------------------------------------------------------------
  // `PUT /video/{id}`.

  /** `model_dump()` of the update body: every field with its value. */
  function Dump(u: ApiModels.VideoUpdate): seq<(string, Option<Json>)> {
    [ ("description", if u.description.Some? then Some(JStr(u.description.value)) else None),
      ("tags", if u.tags.Some? then Some(JArr(seq(|u.tags.value|, i requires 0 <= i < |u.tags.value| => JStr(u.tags.value[i])))) else None),
      ("tagged", if u.tagged.Some? then Some(JBool(u.tagged.value)) else None),
      ("fps", if u.fps.Some? then Some(JNum(u.fps.value)) else None),
      ("duration", if u.duration.Some? then Some(JNum(u.duration.value)) else None),
      ("audio_id", if u.audioId.Some? then Some(JStr(u.audioId.value)) else None) ]
  }

  /** `{k: v for k, v in d.items() if v is not None}`: the entries with a
      value, in order. */
  function StripNone(d: seq<(string, Option<Json>)>): (r: seq<(string, Json)>)
    ensures |r| <= |d|
    ensures forall k, v :: (k, v) in r <==> (k, Some(v)) in d
  {
    if d == [] then []
    else
      assert d == [d[0]] + d[1..];
      (if d[0].1.Some? then [(d[0].0, d[0].1.value)] else []) + StripNone(d[1..])
  }

  /** The dictionary a list of distinct keys denotes. */
  function AsMap(d: seq<(string, Json)>): (m: map<string, Json>)
    ensures forall k :: k in m <==> exists v :: (k, v) in d
    ensures d != [] ==> d[0].0 in m && m[d[0].0] == d[0].1
  {
    if d == [] then map[] else AsMap(d[1..])[d[0].0 := d[0].1]
  }

  /** `update_video` as written: the dictionary is passed positionally, so
      it becomes the `description` argument. It is never None, so the
      repository always builds a column-keyed update and raises; the route
      answers 400 whatever the body, and nothing is stored. */
  method UpdateVideoRoute(videoRepo: VideoRepository, videoId: string, update: ApiModels.VideoUpdate)
    returns (r: Result<VideoRecord, HttpError>)
    ensures r == Failure(HttpError(400, UpdateFailed + KeywordsMustBeStrings))
  {
    var updateData := StripNone(Dump(update));
    var args := VideoArgs(Some(JObj(AsMap(updateData))), None, None, None, None, None, None, None, None);
    var updated := videoRepo.UpdateVideo(videoId, args);
    match updated {
      case Failure(_) =>
        r := Failure(HttpError(400, UpdateFailed + KeywordsMustBeStrings));
      case Success(_) =>
        // The repository rejects every non-empty keyword dictionary.
        assert false;
    }
  }
}
