/** `GET /find`: the most recent photo or video whose tags or description
    mention the query, and the sentence that reports it. The two queries
    read the image and video tables as they stand. */
module Find {
  import opened Wrappers
  import opened Records
  import opened Seqs
  import opened Text

  /** The row `max` picks, remembering which table it came from. */
  datatype Sighting = Photo(image: ImageRecord) | Clip(video: VideoRecord)

  function SightingTime(s: Sighting): real {
    match s
    case Photo(x) => ImageTime(x)
    case Clip(v) => VideoTime(v)
  }

  /** `tags.contains(q)` compiles to `LIKE '%q%'` over the stored JSON text;
      here it holds when one tag holds the query up to ASCII case. */
  predicate TagsMention(tags: seq<string>, q: string) {
    exists t | t in tags :: ContainsIgnoreCase(t, q)
  }

  /** `description.ilike('%q%')`; a NULL description matches nothing. */
  predicate DescriptionMentions(d: Option<string>, q: string) {
    d.Some? && ContainsIgnoreCase(d.value, q)
  }

  function ImageMentions(q: string): ImageRecord -> bool {
    (x: ImageRecord) => TagsMention(x.tags, q) || DescriptionMentions(x.description, q)
  }

  function VideoMentions(q: string): VideoRecord -> bool {
    (v: VideoRecord) => TagsMention(v.tags, q) || DescriptionMentions(v.description, q)
  }

  /** `select(...).where(...).order_by(timestamp.desc()).limit(1)` and
      `scalar_one_or_none()`. */
  function LatestImage(images: seq<ImageRecord>, q: string): (r: Option<ImageRecord>)
    ensures r.Some? <==> exists x | x in images :: ImageMentions(q)(x)
    ensures r.Some? ==> r.value in images && ImageMentions(q)(r.value)
    ensures r.Some? ==> forall y | y in images && ImageMentions(q)(y) :: y.timestamp <= r.value.timestamp
  {
    var page := Select(images, ImageMentions(q), ImageTime, 0, 1);
    SelectFirst(images, ImageMentions(q), ImageTime);
    if page == [] then None else Some(page[0])
  }

  function LatestVideo(videos: seq<VideoRecord>, q: string): (r: Option<VideoRecord>)
    ensures r.Some? <==> exists v | v in videos :: VideoMentions(q)(v)
    ensures r.Some? ==> r.value in videos && VideoMentions(q)(r.value)
    ensures r.Some? ==> forall w | w in videos && VideoMentions(q)(w) :: w.timestamp <= r.value.timestamp
  {
    var page := Select(videos, VideoMentions(q), VideoTime, 0, 1);
    SelectFirst(videos, VideoMentions(q), VideoTime);
    if page == [] then None else Some(page[0])
  }

  /** The candidate list: the image first, then the video. */
  function Candidates(image: Option<ImageRecord>, video: Option<VideoRecord>): seq<Sighting> {
    (if image.Some? then [Photo(image.value)] else []) + (if video.Some? then [Clip(video.value)] else [])
  }

  /** Python's `max(cs, key=...)`: a later element replaces the current
      maximum only when its key is strictly greater, so the first maximal
      element wins. */
  function MaxByTime(cs: seq<Sighting>): (m: Sighting)
    requires cs != []
    ensures m in cs
    ensures forall c | c in cs :: SightingTime(c) <= SightingTime(m)
  {
    if |cs| == 1 then cs[0]
    else
      var init := cs[..|cs| - 1];
      var best := MaxByTime(init);
      var last := cs[|cs| - 1];
      assert cs == init + [last];
      if SightingTime(last) > SightingTime(best) then last else best
  }

  /** The maximum is the first element with the greatest time: every
      element before it is strictly older. */
  lemma {:induction false} MaxByTimeFirst(cs: seq<Sighting>)
    requires cs != []
    ensures exists i | 0 <= i < |cs| :: cs[i] == MaxByTime(cs)
              && forall j | 0 <= j < i :: SightingTime(cs[j]) < SightingTime(MaxByTime(cs))
  {
    var m := MaxByTime(cs);
    if |cs| == 1 {
      assert cs[0] == m;
    } else {
      var init := cs[..|cs| - 1];
      var best := MaxByTime(init);
      var last := cs[|cs| - 1];
      if SightingTime(last) > SightingTime(best) {
        assert m == last;
        forall j | 0 <= j < |cs| - 1 ensures SightingTime(cs[j]) < SightingTime(m) {
          assert cs[j] == init[j];
        }
        assert cs[|cs| - 1] == m;
      } else {
        assert m == best;
        MaxByTimeFirst(init);
        var i :| 0 <= i < |init| && init[i] == best
                 && forall j | 0 <= j < i :: SightingTime(init[j]) < SightingTime(best);
        forall j | 0 <= j < i ensures SightingTime(cs[j]) < SightingTime(m) {
          assert cs[j] == init[j];
        }
        assert cs[i] == m;
      }
    }
  }

  /** The video is reported only when it is strictly newer than the image;
      on equal timestamps the image wins. */
  lemma MaxOfTwo(x: ImageRecord, v: VideoRecord)
    ensures MaxByTime([Photo(x), Clip(v)]) == if v.timestamp > x.timestamp then Clip(v) else Photo(x)
  {
    var cs := [Photo(x), Clip(v)];
    var m := MaxByTime(cs);
    MaxByTimeFirst(cs);
    var i :| 0 <= i < |cs| && cs[i] == m && forall j | 0 <= j < i :: SightingTime(cs[j]) < SightingTime(m);
    if i == 1 {
      assert SightingTime(cs[0]) < SightingTime(m);
    }
  }

  /** The image is reported when there is no video or the video is not
      strictly newer; otherwise the video. */
  lemma CandidateChoice(image: Option<ImageRecord>, video: Option<VideoRecord>)
    requires image.Some? || video.Some?
    ensures Candidates(image, video) != []
    ensures MaxByTime(Candidates(image, video))
         == if image.Some? && (video.None? || video.value.timestamp <= image.value.timestamp)
            then Photo(image.value) else Clip(video.value)
  {
    if image.Some? && video.Some? {
      MaxOfTwo(image.value, video.value);
    }
  }

  /** The sentence for the reported row. A missing description renders as
      `None`, and the tags are joined with ", ". */
  function Sentence(q: string, s: Sighting): (r: string)
    ensures |r| > 16 + |q| && r[..16 + |q|] == "I last saw your " + q && r[|r| - 1] == '.'
  {
    var description := match s
      case Photo(x) => x.description
      case Clip(v) => v.description;
    var tags := match s
      case Photo(x) => x.tags
      case Clip(v) => v.tags;
    var mediaType := if s.Photo? then "photo" else "video";
    "I last saw your " + q + " in a " + mediaType + " of a " + description.GetOr("None")
    + " which contains " + Join(tags, ", ") + "."
  }

  /** The most recent matching row over both tables. */
  function MostRecent(images: seq<ImageRecord>, videos: seq<VideoRecord>, q: string): (r: Option<Sighting>)
    ensures r.None? <==> (forall x | x in images :: !ImageMentions(q)(x)) && (forall v | v in videos :: !VideoMentions(q)(v))
    ensures r.Some? && r.value.Photo? ==>
      r.value.image in images && ImageMentions(q)(r.value.image)
      && (forall y | y in images && ImageMentions(q)(y) :: y.timestamp <= r.value.image.timestamp)
      && (forall w | w in videos && VideoMentions(q)(w) :: w.timestamp <= r.value.image.timestamp)
    ensures r.Some? && r.value.Clip? ==>
      r.value.video in videos && VideoMentions(q)(r.value.video)
      && (forall y | y in images && ImageMentions(q)(y) :: y.timestamp < r.value.video.timestamp)
      && (forall w | w in videos && VideoMentions(q)(w) :: w.timestamp <= r.value.video.timestamp)
  {
    PickedNothing(images, videos, q);
    PickedPhoto(images, videos, q);
    PickedClip(images, videos, q);
    Pick(LatestImage(images, q), LatestVideo(videos, q))
  }

  lemma PickedNothing(images: seq<ImageRecord>, videos: seq<VideoRecord>, q: string)
    ensures Pick(LatestImage(images, q), LatestVideo(videos, q)).None?
        <==> (forall x | x in images :: !ImageMentions(q)(x)) && (forall v | v in videos :: !VideoMentions(q)(v))
  {
  }

  lemma PickedPhoto(images: seq<ImageRecord>, videos: seq<VideoRecord>, q: string)
    ensures var r := Pick(LatestImage(images, q), LatestVideo(videos, q));
      r.Some? && r.value.Photo? ==>
      r.value.image in images && ImageMentions(q)(r.value.image)
      && (forall y | y in images && ImageMentions(q)(y) :: y.timestamp <= r.value.image.timestamp)
      && (forall w | w in videos && VideoMentions(q)(w) :: w.timestamp <= r.value.image.timestamp)
  {
  }

  lemma PickedClip(images: seq<ImageRecord>, videos: seq<VideoRecord>, q: string)
    ensures var r := Pick(LatestImage(images, q), LatestVideo(videos, q));
      r.Some? && r.value.Clip? ==>
      r.value.video in videos && VideoMentions(q)(r.value.video)
      && (forall y | y in images && ImageMentions(q)(y) :: y.timestamp < r.value.video.timestamp)
      && (forall w | w in videos && VideoMentions(q)(w) :: w.timestamp <= r.value.video.timestamp)
  {
  }

  /** `max` over the candidates: the image unless the video is strictly
      newer, and nothing when neither table has a match. */
  function Pick(image: Option<ImageRecord>, video: Option<VideoRecord>): (r: Option<Sighting>)
    ensures r.None? <==> image.None? && video.None?
    ensures r.Some? && r.value.Photo? ==>
      image == Some(r.value.image) && (video.Some? ==> video.value.timestamp <= r.value.image.timestamp)
    ensures r.Some? && r.value.Clip? ==>
      video == Some(r.value.video) && (image.Some? ==> image.value.timestamp < r.value.video.timestamp)
  {
    var cs := Candidates(image, video);
    if cs == [] then None
    else
      CandidateChoice(image, video);
      Some(MaxByTime(cs))
  }

  /** `find_item`: the sentence for the most recent match, or 404. */
  function FindItem(q: string, images: seq<ImageRecord>, videos: seq<VideoRecord>): (r: Result<string, HttpError>)
    ensures r.Failure? <==> (forall x | x in images :: !ImageMentions(q)(x)) && (forall v | v in videos :: !VideoMentions(q)(v))
    ensures r.Failure? ==> r.error == HttpError(404, "I could not find your " + q + ".")
    ensures r.Success? ==> r.value == Sentence(q, MostRecent(images, videos, q).value)
  {
    match MostRecent(images, videos, q)
    case None => Failure(HttpError(404, "I could not find your " + q + "."))
    case Some(s) => Success(Sentence(q, s))
  }
}
