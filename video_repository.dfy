/** `VideoRepository`: the rows of the `videos` table. Creation computes a
    missing duration from the frame count and the frame rate; the queries
    select newest-first pages, filtered by flag, tags, duration or frame
    count. */
module VideoRepo {
  import opened Wrappers
  import opened Records
  import opened Seqs
  import opened MediaStore

  function AnyVideo(v: VideoRecord): bool { true }

  /** The duration `create_video` stores: `len(frames) / fps` when none is
      given, there is at least one frame and the rate is positive. */
  function StoredDuration(frames: seq<string>, fps: real, duration: Option<real>): (d: Option<real>)
    ensures duration.Some? ==> d == duration
    ensures duration.None? && frames != [] && fps > 0.0 ==> d.Some? && d.value * fps == |frames| as real
    ensures duration.None? && (frames == [] || fps <= 0.0) ==> d.None?
  {
    if duration.None? && frames != [] && fps > 0.0 then Some(|frames| as real / fps) else duration
  }

  /** A computed duration is positive. */
  lemma ComputedDurationPositive(frames: seq<string>, fps: real)
    requires frames != [] && fps > 0.0
    ensures StoredDuration(frames, fps, None).value > 0.0
  {
    var d := StoredDuration(frames, fps, None).value;
    assert d * fps == |frames| as real;
  }

  /** The duration filter of `get_videos_by_duration_range`: a bound that
      is given compares against the column, and a NULL duration fails
      every comparison. */
  predicate InDurationRange(v: VideoRecord, lo: Option<real>, hi: Option<real>) {
    (lo.None? || (v.duration.Some? && v.duration.value >= lo.value))
    && (hi.None? || (v.duration.Some? && v.duration.value <= hi.value))
  }

  function DurationBetween(lo: Option<real>, hi: Option<real>): VideoRecord -> bool {
    v => InDurationRange(v, lo, hi)
  }

  /** `len(video.frames) if video.frames is not None else 0`. */
  function FrameCount(v: VideoRecord): (n: nat)
    ensures v.frames.None? ==> n == 0
    ensures v.frames.Some? ==> n == |v.frames.value|
  {
    if v.frames.Some? then |v.frames.value| else 0
  }

  predicate InFrameRange(v: VideoRecord, lo: Option<int>, hi: Option<int>) {
    (lo.None? || FrameCount(v) >= lo.value) && (hi.None? || FrameCount(v) <= hi.value)
  }

  function FramesBetween(lo: Option<int>, hi: Option<int>): VideoRecord -> bool {
    v => InFrameRange(v, lo, hi)
  }

  predicate SharesTag(v: VideoRecord, tags: seq<string>) {
    exists t | t in tags :: t in v.tags
  }

  function SharesTagWith(tags: seq<string>): VideoRecord -> bool {
    v => SharesTag(v, tags)
  }

  /** Every argument of `update_video`; Python does not check their types,
      and only whether each is None matters. */
  datatype VideoArgs = VideoArgs(
    description: Option<Json>, tags: Option<Json>, embeddings: Option<Json>,
    tagged: Option<Json>, fps: Option<Json>, duration: Option<Json>,
    audio: Option<Json>, latitude: Option<Json>, longitude: Option<Json>)

  predicate NoArgs(a: VideoArgs) {
    a.description.None? && a.tags.None? && a.embeddings.None? && a.tagged.None?
    && a.fps.None? && a.duration.None? && a.audio.None? && a.latitude.None? && a.longitude.None?
  }

  class VideoRepository {
    const store: Store

    constructor (store: Store)
      ensures this.store == store
    {
      this.store := store;
    }

    /** `create_video`: a new row with the given fields, no description and
        no embeddings; the duration is computed when it is missing. */
    method CreateVideo(random: nat, now: int, frames: seq<string>, tagged: bool := false,
                       tags: Option<seq<string>> := None, fps: real := 30.0,
                       duration: Option<real> := None, audioId: Option<string> := None,
                       latitude: Option<real> := None, longitude: Option<real> := None)
      returns (r: Result<VideoRecord, DbError>)
      requires store.Valid()
      modifies store
      ensures store.Valid()
      ensures store.images == old(store.images) && store.audios == old(store.audios)
      ensures r.Failure? <==> HasKey(old(store.videos), VideoId, Uuid4(random))
      ensures r.Failure? ==> r.error == DuplicateKey && store.videos == old(store.videos)
      ensures r.Success? ==> store.videos == old(store.videos) + [r.value]
      ensures r.Success? ==> var v := r.value;
        v.id == Uuid4(random) && IsUuid4(v.id) && v.timestamp == now && v.frames == Some(frames) && v.fps == fps
        && v.duration == StoredDuration(frames, fps, duration) && v.tags == tags.GetOr([])
        && v.tagged == tagged && v.description.None? && v.embeddings.None?
        && v.audioId == audioId && v.latitude == latitude && v.longitude == longitude
    {
      r := CreateDescribedVideo(random, now, frames, tagged, tags, fps, duration, audioId, latitude, longitude, None);
    }

    /** `create_video` with the `description` parameter its documentation
        lists and the corrected route passes; the code as written has no
        such parameter. */
    method CreateDescribedVideo(random: nat, now: int, frames: seq<string>, tagged: bool,
                                tags: Option<seq<string>>, fps: real,
                                duration: Option<real>, audioId: Option<string>,
                                latitude: Option<real>, longitude: Option<real>,
                                description: Option<string>)
      returns (r: Result<VideoRecord, DbError>)
      requires store.Valid()
      modifies store
      ensures store.Valid()
      ensures store.images == old(store.images) && store.audios == old(store.audios)
      ensures r.Failure? <==> HasKey(old(store.videos), VideoId, Uuid4(random))
      ensures r.Failure? ==> r.error == DuplicateKey && store.videos == old(store.videos)
      ensures r.Success? ==> store.videos == old(store.videos) + [r.value]
      ensures r.Success? ==> var v := r.value;
        v.id == Uuid4(random) && IsUuid4(v.id) && v.timestamp == now && v.frames == Some(frames) && v.fps == fps
        && v.duration == StoredDuration(frames, fps, duration) && v.tags == tags.GetOr([])
        && v.tagged == tagged && v.description == description && v.embeddings.None?
        && v.audioId == audioId && v.latitude == latitude && v.longitude == longitude
    {
      var id := Uuid4(random);
      if HasKey(store.videos, VideoId, id) {
        return Failure(DuplicateKey);
      }
      var v := VideoRecord(id, now, Some(frames), fps, StoredDuration(frames, fps, duration),
                           tags.GetOr([]), tagged, description, None, audioId, latitude, longitude);
      AppendKeepsKeys(store.videos, VideoId, v);
      store.videos := store.videos + [v];
      r := Success(v);
    }

    /** `get_video_by_id`. */
    function GetVideoById(videoId: string): (r: Option<VideoRecord>)
      reads store
      ensures r.Some? <==> exists v | v in store.videos :: v.id == videoId
      ensures r.Some? ==> r.value in store.videos && r.value.id == videoId
    {
      HasKeyMember(store.videos, VideoId, videoId);
      Lookup(store.videos, VideoId, videoId)
    }

    /** `get_all_videos`. */
    function GetAllVideos(skip: int := 0, limit: int := 100): (r: seq<VideoRecord>)
      reads store
      ensures r == Select(store.videos, AnyVideo, VideoTime, skip, limit)
      ensures SortedDesc(r, VideoTime)
      ensures multiset(r) <= multiset(store.videos)
      ensures limit >= 0 ==> |r| <= limit
      ensures skip <= 0 && limit < 0 ==> forall v | v in store.videos :: v in r
    {
      FilterAll(store.videos, AnyVideo);
      Select(store.videos, AnyVideo, VideoTime, skip, limit)
    }

    /** `get_tagged_videos`. */
    function GetTaggedVideos(skip: int := 0, limit: int := 100): (r: seq<VideoRecord>)
      reads store
      ensures r == Select(store.videos, VideoIsTagged, VideoTime, skip, limit)
      ensures forall v | v in r :: v in store.videos && v.tagged
      ensures SortedDesc(r, VideoTime)
      ensures limit >= 0 ==> |r| <= limit
      ensures skip <= 0 && limit < 0 ==> forall v | v in store.videos && v.tagged :: v in r
    {
      Select(store.videos, VideoIsTagged, VideoTime, skip, limit)
    }

    /** `get_untagged_videos`. */
    function GetUntaggedVideos(skip: int := 0, limit: int := 100): (r: seq<VideoRecord>)
      reads store
      ensures r == Select(store.videos, VideoIsUntagged, VideoTime, skip, limit)
      ensures forall v | v in r :: v in store.videos && !v.tagged
      ensures SortedDesc(r, VideoTime)
      ensures limit >= 0 ==> |r| <= limit
      ensures skip <= 0 && limit < 0 ==> forall v | v in store.videos && !v.tagged :: v in r
    {
      Select(store.videos, VideoIsUntagged, VideoTime, skip, limit)
    }

    function CountVideos(): (n: nat)
      reads store
      ensures n == |GetAllVideos(0, -1)|
    {
      FilterAll(store.videos, AnyVideo);
      |store.videos|
    }

    function CountTaggedVideos(): (n: nat)
      reads store
      ensures n == |GetTaggedVideos(0, -1)|
    {
      |Filter(store.videos, VideoIsTagged)|
    }

    function CountUntaggedVideos(): (n: nat)
      reads store
      ensures n == |GetUntaggedVideos(0, -1)|
    {
      |Filter(store.videos, VideoIsUntagged)|
    }

    /** `get_videos_by_duration_range`: the bounds are inclusive and are
        applied before paging. */
    function GetVideosByDurationRange(minDuration: Option<real> := None, maxDuration: Option<real> := None,
                                      skip: int := 0, limit: int := 100): (r: seq<VideoRecord>)
      reads store
      ensures r == Select(store.videos, DurationBetween(minDuration, maxDuration), VideoTime, skip, limit)
      ensures forall v | v in r :: v in store.videos && InDurationRange(v, minDuration, maxDuration)
      ensures minDuration.Some? || maxDuration.Some? ==> forall v | v in r :: v.duration.Some?
      ensures SortedDesc(r, VideoTime)
      ensures limit >= 0 ==> |r| <= limit
      ensures skip <= 0 && limit < 0 ==>
        forall v | v in store.videos && InDurationRange(v, minDuration, maxDuration) :: v in r
    {
      Select(store.videos, DurationBetween(minDuration, maxDuration), VideoTime, skip, limit)
    }

    /** `search_videos_by_tags`: the videos of the page that share a tag
        with `tags`, in page order. */
    method SearchVideosByTags(tags: seq<string>, skip: int := 0, limit: int := 100)
      returns (r: seq<VideoRecord>)
      ensures r == Filter(GetAllVideos(skip, limit), SharesTagWith(tags))
      ensures SortedDesc(r, VideoTime)
      ensures forall v | v in r :: v in store.videos && SharesTag(v, tags)
    {
      var page := GetAllVideos(skip, limit);
      var p := SharesTagWith(tags);
      r := FilterByTags(page, tags);
      PageFilterFacts(page, store.videos, p, limit);
    }

    /** `get_videos_by_frame_count_range`: the bounds are inclusive, a
        missing frame list counts 0, and the filter runs on the page. */
    method GetVideosByFrameCountRange(minFrames: Option<int> := None, maxFrames: Option<int> := None,
                                      skip: int := 0, limit: int := 100)
      returns (r: seq<VideoRecord>)
      ensures r == Filter(GetAllVideos(skip, limit), FramesBetween(minFrames, maxFrames))
      ensures SortedDesc(r, VideoTime)
      ensures limit >= 0 ==> |r| <= limit
      ensures forall v | v in r :: v in store.videos && InFrameRange(v, minFrames, maxFrames)
    {
      var page := GetAllVideos(skip, limit);
      var p := FramesBetween(minFrames, maxFrames);
      r := FilterByFrames(page, minFrames, maxFrames);
      PageFilterFacts(page, store.videos, p, limit);
    }

    /** `update_video`: with every argument None nothing is written and the
        current row is returned; any other argument is keyed by a column
        object, which `values(**update_data)` rejects before any write. */
    method UpdateVideo(videoId: string, args: VideoArgs) returns (r: Result<Option<VideoRecord>, DbError>)
      ensures NoArgs(args) ==> r == Success(GetVideoById(videoId))
      ensures !NoArgs(args) ==> r == Failure(NonStringKeyword)
    {
      if NoArgs(args) {
        return Success(GetVideoById(videoId));
      }
      r := Failure(NonStringKeyword);
    }

    /** `delete_video`: True iff some row had that id; every such row is
        removed. */
    method DeleteVideo(videoId: string) returns (deleted: bool)
      requires store.Valid()
      modifies store
      ensures store.Valid()
      ensures store.images == old(store.images) && store.audios == old(store.audios)
      ensures deleted <==> HasKey(old(store.videos), VideoId, videoId)
      ensures store.videos == Without(old(store.videos), VideoId, videoId)
      ensures !deleted ==> store.videos == old(store.videos)
      ensures deleted ==> var i := KeyIndex(old(store.videos), VideoId, videoId);
        store.videos == old(store.videos)[..i] + old(store.videos)[i + 1..]
    {
      deleted := HasKey(store.videos, VideoId, videoId);
      if deleted {
        WithoutRemovesOne(store.videos, VideoId, videoId);
      } else {
        WithoutAbsent(store.videos, VideoId, videoId);
      }
      WithoutKeepsKeys(store.videos, VideoId, videoId);
      store.videos := Without(store.videos, VideoId, videoId);
    }
  }

  /** The loop of `search_videos_by_tags`: it keeps, in order, the videos
      of the page that share a tag with `tags`. */
  method FilterByTags(page: seq<VideoRecord>, tags: seq<string>) returns (r: seq<VideoRecord>)
    ensures r == Filter(page, SharesTagWith(tags))
  {
    var p := SharesTagWith(tags);
    r := [];
    var i := 0;
    while i < |page|
      invariant 0 <= i <= |page|
      invariant r == Filter(page[..i], p)
    {
      var video := page[i];
      FilterSnoc(page, i, p);
      assert p(video) == SharesTag(video, tags);
      if SharesTag(video, tags) {
        r := r + [video];
      }
      i := i + 1;
    }
    assert page[..i] == page;
  }

  /** The loop of `get_videos_by_frame_count_range`: it keeps, in order,
      the videos of the page whose frame count is within the bounds. */
  method FilterByFrames(page: seq<VideoRecord>, minFrames: Option<int>, maxFrames: Option<int>)
    returns (r: seq<VideoRecord>)
    ensures r == Filter(page, FramesBetween(minFrames, maxFrames))
  {
    var p := FramesBetween(minFrames, maxFrames);
    r := [];
    var i := 0;
    while i < |page|
      invariant 0 <= i <= |page|
      invariant r == Filter(page[..i], p)
    {
      var video := page[i];
      FilterSnoc(page, i, p);
      assert p(video) == InFrameRange(video, minFrames, maxFrames);
      if InFrameRange(video, minFrames, maxFrames) {
        r := r + [video];
      }
      i := i + 1;
    }
    assert page[..i] == page;
  }

  /** What keeping some videos of a page guarantees. */
  lemma PageFilterFacts(page: seq<VideoRecord>, all: seq<VideoRecord>, p: VideoRecord -> bool, limit: int)
    requires multiset(page) <= multiset(all) && SortedDesc(page, VideoTime)
    requires limit >= 0 ==> |page| <= limit
    ensures var r := Filter(page, p);
      SortedDesc(r, VideoTime) && (limit >= 0 ==> |r| <= limit) && forall v | v in r :: v in all && p(v)
  {
    var r := Filter(page, p);
    FilterSorted(page, p, VideoTime);
    forall v | v in r ensures v in all && p(v) {
      assert v in page;
      assert v in multiset(page);
    }
  }

  /** Every video is either tagged or untagged. */
  lemma CountsPartition(repo: VideoRepository)
    ensures repo.CountTaggedVideos() + repo.CountUntaggedVideos() == repo.CountVideos()
  {
    FilterComplement(repo.store.videos, VideoIsTagged, VideoIsUntagged);
  }

  /** Without bounds the duration query is the plain newest-first query,
      NULL durations included. */
  lemma UnboundedDurationIsAll(repo: VideoRepository, skip: int, limit: int)
    ensures repo.GetVideosByDurationRange(None, None, skip, limit) == repo.GetAllVideos(skip, limit)
  {
    var s := repo.store.videos;
    FilterAll(s, AnyVideo);
    FilterAll(s, DurationBetween(None, None));
  }

  /** Filtering the first page of two rows drops a match that sorts
      second. */
  lemma PagingDropsLaterMatch(hit: VideoRecord, miss: VideoRecord, p: VideoRecord -> bool)
    requires p(hit) && !p(miss) && VideoTime(miss) > VideoTime(hit)
    ensures Filter(Page(SortDesc([hit, miss], VideoTime), 0, 1), p) == []
    ensures Filter([hit, miss], p) == [hit]
  {
    assert SortDesc([miss], VideoTime) == [miss];
    assert SortDesc([hit, miss], VideoTime) == InsertDesc(hit, [miss], VideoTime);
    assert InsertDesc(hit, [miss], VideoTime) == [miss] + InsertDesc(hit, [], VideoTime);
    assert Page([miss, hit], 0, 1) == [miss];
    FilterSingle(miss, p);
    assert [hit, miss][1..] == [miss];
  }

  /** The frame filter runs after paging: a page of non-matching videos
      yields nothing even when a matching video exists further on. */
  lemma FrameFilterAfterPaging()
    ensures var hit := VideoRecord("a", 0, Some(["f"]), 30.0, None, [], false, None, None, None, None, None);
      var miss := VideoRecord("b", 1, None, 30.0, None, [], false, None, None, None, None, None);
      var t := [hit, miss];
      Filter(Page(SortDesc(t, VideoTime), 0, 1), FramesBetween(Some(1), None)) == []
      && Filter(t, FramesBetween(Some(1), None)) == [hit]
  {
    var hit := VideoRecord("a", 0, Some(["f"]), 30.0, None, [], false, None, None, None, None, None);
    var miss := VideoRecord("b", 1, None, 30.0, None, [], false, None, None, None, None, None);
    PagingDropsLaterMatch(hit, miss, FramesBetween(Some(1), None));
  }
}
