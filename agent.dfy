/** `ChatAgent`: the conversational front end over the collection. It keeps
    the rendered collection context between requests (`context_cache`) and
    the exchanges of the conversation so far (`chat_history`). The language
    model is a function from prompt to reply text or exception message;
    `str()` of timestamps and floats is a pair of formatting functions. */
module Agent {
  import opened Wrappers
  import opened Records
  import opened Seqs
  import opened Text
  import opened MediaStore
  import ImageRepo
  import VideoRepo

  datatype Exchange = Exchange(user: string, assistant: string)

  /** Why building the context failed: the video loop appends to a list
      that is never bound. */
  datatype ContextError = VideoInfoUnbound

  /** How timestamps and floats are rendered inside f-strings. */
  datatype Show = Show(time: int -> string, number: real -> string)

  const ImageLimit: nat := 300
  const VideoLimit: nat := 200
  const HistoryWindow: nat := 10
  const Placeholder := "[Not yet analyzed by AI]"
  const ApologyPrefix := "I'm sorry, I encountered an error: "
  const Analyzed := "STATUS: Fully Analyzed"
  const Pending := "STATUS: Pending AI Analysis"

  // ---------------------------------------------------------------------
  // Python truthiness of the columns the context reads.

  predicate Truthy(s: Option<string>) { s.Some? && s.value != "" }

  /** A float column is truthy when set and non-zero. */
  predicate NonZero(x: Option<real>) { x.Some? && x.value != 0.0 }

  function ImageLocated(x: ImageRecord): bool { NonZero(x.latitude) && NonZero(x.longitude) }
  function VideoLocated(x: VideoRecord): bool { NonZero(x.latitude) && NonZero(x.longitude) }

  /** `select(AudioModel.transcription).where(AudioModel.id == id)`
      followed by `scalar_one_or_none()`. */
  function TranscriptionOf(audios: seq<AudioRecord>, id: string): (t: Option<string>)
    ensures t.Some? ==> exists a | a in audios :: a.id == id && a.transcription == t
    ensures !HasKey(audios, AudioId, id) ==> t.None?
  {
    match Lookup(audios, AudioId, id)
    case None => None
    case Some(a) => a.transcription
  }

  /** A media item counts as "with Audio" when its audio id is truthy and
      the transcription it names is truthy. */
  predicate Voiced(audios: seq<AudioRecord>, audioId: Option<string>) {
    Truthy(audioId) && Truthy(TranscriptionOf(audios, audioId.value))
  }

  function ImageVoiced(audios: seq<AudioRecord>): ImageRecord -> bool {
    (x: ImageRecord) => Voiced(audios, x.audioId)
  }

  function VideoVoiced(audios: seq<AudioRecord>): VideoRecord -> bool {
    (x: VideoRecord) => Voiced(audios, x.audioId)
  }

  // ---------------------------------------------------------------------
  // The lines of one detail block.

  function Status(tagged: bool): string {
    if tagged then Analyzed else Pending
  }

  function DescriptionLine(d: Option<string>): string {
    "DESCRIPTION: " + if Truthy(d) then d.value else Placeholder
  }

  function TagLines(tags: seq<string>): seq<string> {
    if tags != [] then ["TAGS: " + Join(tags, ", ")] else []
  }

  function GpsLines(located: bool, latitude: Option<real>, longitude: Option<real>, show: Show): seq<string>
    requires located ==> latitude.Some? && longitude.Some?
  {
    if located then ["GPS: " + show.number(latitude.value) + ", " + show.number(longitude.value)] else []
  }

  /** The AUDIO line: only for a transcription that is not blank, and
      stripped. */
  function AudioLines(audios: seq<AudioRecord>, audioId: Option<string>): seq<string> {
    if !Truthy(audioId) then []
    else
      var t := TranscriptionOf(audios, audioId.value);
      if t.Some? && Strip(t.value) != "" then ["AUDIO: \"" + Strip(t.value) + "\""] else []
  }

  /** The block of image number `i` (1-based position in the fetch). */
  function ImageBlock(i: nat, x: ImageRecord, audios: seq<AudioRecord>, show: Show): seq<string> {
    ["IMAGE #" + NatToString(i) + ":", "TIMESTAMP: " + show.time(x.timestamp)]
    + [DescriptionLine(x.description)]
    + TagLines(x.tags)
    + GpsLines(ImageLocated(x), x.latitude, x.longitude, show)
    + AudioLines(audios, x.audioId)
    + [Status(x.tagged)]
  }

  /** The block a video would get. The source never binds the list this
      block is collected in; the header line mirrors the image block's. */
  function VideoBlock(i: nat, v: VideoRecord, audios: seq<AudioRecord>, show: Show): seq<string> {
    ["VIDEO #" + NatToString(i) + ":", "TIMESTAMP: " + show.time(v.timestamp)]
    + (if v.fps != 0.0 then ["FPS: " + show.number(v.fps)] else [])
    + (if NonZero(v.duration) then ["DURATION: " + show.number(v.duration.value) + "s"] else [])
    + TagLines(v.tags)
    + GpsLines(VideoLocated(v), v.latitude, v.longitude, show)
    + AudioLines(audios, v.audioId)
    + [Status(v.tagged)]
  }

  /** The STATUS line says "Fully Analyzed" exactly for tagged images, and
      the placeholder shows exactly when the description is missing or
      empty (or is the placeholder text itself). */
  lemma ImageBlockStatus(i: nat, x: ImageRecord, audios: seq<AudioRecord>, show: Show)
    ensures var b := ImageBlock(i, x, audios, show);
      |b| >= 4 && b[0] == "IMAGE #" + NatToString(i) + ":"
      && (b[|b| - 1] == Analyzed <==> x.tagged)
      && (b[2] == "DESCRIPTION: " + Placeholder <==> !Truthy(x.description) || x.description.value == Placeholder)
  {
    var b := ImageBlock(i, x, audios, show);
    assert b[|b| - 1] == Status(x.tagged);
    assert |Analyzed| != |Pending|;
    var d := x.description;
    if Truthy(d) && b[2] == "DESCRIPTION: " + Placeholder {
      assert ("DESCRIPTION: " + d.value)[13..] == d.value;
      assert ("DESCRIPTION: " + Placeholder)[13..] == Placeholder;
    }
  }

  // ---------------------------------------------------------------------
  // Every second item gets a block.

  function ImageBlockOf(audios: seq<AudioRecord>, show: Show): (nat, ImageRecord) -> seq<string> {
    (i: nat, x: ImageRecord) => ImageBlock(i, x, audios, show)
  }

  function VideoBlockOf(audios: seq<AudioRecord>, show: Show): (nat, VideoRecord) -> seq<string> {
    (i: nat, v: VideoRecord) => VideoBlock(i, v, audios, show)
  }

  /** The detail lines for the first `n` items: `enumerate(xs, 1)`
      skipping odd positions, each block followed by an empty line. */
  function Details<T>(xs: seq<T>, n: nat, block: (nat, T) -> seq<string>): seq<string>
    requires n <= |xs|
  {
    if n == 0 then []
    else Details(xs, n - 1, block) + if n % 2 == 0 then block(n, xs[n - 1]) + [""] else []
  }

  /** The blocks of the items at 1-based positions 2, 4, ..., up to `n`. */
  function EvenBlocks<T>(xs: seq<T>, n: nat, block: (nat, T) -> seq<string>): (r: seq<seq<string>>)
    requires n <= |xs|
    ensures |r| == n / 2
  {
    seq(n / 2, k requires 0 <= k < n / 2 => block(2 * k + 2, xs[2 * k + 1]) + [""])
  }

  function Concat(ss: seq<seq<string>>): seq<string> {
    if ss == [] then [] else Concat(ss[..|ss| - 1]) + ss[|ss| - 1]
  }

  lemma ConcatSnoc(ss: seq<seq<string>>, x: seq<string>)
    ensures Concat(ss + [x]) == Concat(ss) + x
  {
    assert (ss + [x])[..|ss|] == ss;
  }

  /** Position `n` adds a block exactly when it is even. */
  lemma EvenBlocksStep<T>(xs: seq<T>, n: nat, block: (nat, T) -> seq<string>)
    requires 0 < n <= |xs|
    ensures n % 2 == 0 ==> EvenBlocks(xs, n, block) == EvenBlocks(xs, n - 1, block) + [block(n, xs[n - 1]) + [""]]
    ensures n % 2 != 0 ==> EvenBlocks(xs, n, block) == EvenBlocks(xs, n - 1, block)
  {
  }

  /** The detail lines are exactly `n / 2` blocks, block `k` describing
      the item at 1-based position `2k + 2`: every second item, starting
      with the second. */
  lemma {:induction false} DetailsEveryOther<T>(xs: seq<T>, n: nat, block: (nat, T) -> seq<string>)
    requires n <= |xs|
    ensures Details(xs, n, block) == Concat(EvenBlocks(xs, n, block))
  {
    if n == 0 {
      assert EvenBlocks(xs, n, block) == [];
    } else {
      DetailsEveryOther(xs, n - 1, block);
      DetailsEveryOtherStep(xs, n, block);
    }
  }

  /** The inductive step: if the first `n - 1` positions agree, so do the
      first `n`. */
  lemma DetailsEveryOtherStep<T>(xs: seq<T>, n: nat, block: (nat, T) -> seq<string>)
    requires 0 < n <= |xs|
    requires Details(xs, n - 1, block) == Concat(EvenBlocks(xs, n - 1, block))
    ensures Details(xs, n, block) == Concat(EvenBlocks(xs, n, block))
  {
    EvenBlocksStep(xs, n, block);
    var e := EvenBlocks(xs, n - 1, block);
    if n % 2 == 0 {
      var b := block(n, xs[n - 1]) + [""];
      assert Details(xs, n, block) == Details(xs, n - 1, block) + b;
      ConcatSnoc(e, b);
    } else {
      assert Details(xs, n, block) == Details(xs, n - 1, block) + [];
    }
  }

  /** An odd position adds nothing. */
  lemma DetailsOddStep<T>(xs: seq<T>, n: nat, block: (nat, T) -> seq<string>)
    requires 0 < n <= |xs| && n % 2 != 0
    ensures Details(xs, n, block) == Details(xs, n - 1, block)
  {
    assert Details(xs, n, block) == Details(xs, n - 1, block) + [];
  }

  /** One more even position adds its block to the image detail lines. */
  lemma ImageDetailsStep(images: seq<ImageRecord>, k: nat, audios: seq<AudioRecord>, show: Show, info: seq<string>)
    requires k < |images| && (k + 1) % 2 == 0 && info == ImageBlock(k + 1, images[k], audios, show)
    ensures Details(images, k + 1, ImageBlockOf(audios, show))
         == Details(images, k, ImageBlockOf(audios, show)) + (info + [""])
  {
  }

  // ---------------------------------------------------------------------
  // The whole context.

  /** Line `i` of the fixed instructions that open the context. */
  function PreambleLine(i: nat): string {
    match i
    case 0 => "=== PHOTO & VIDEO COLLECTION ASSISTANT ==="
    case 1 => ""
    case 2 => "You are an AI assistant with complete access to a user's comprehensive photo and video collection database."
    case 3 => "You have detailed information about every image and video including AI-generated descriptions, detected objects,"
    case 4 => "location data, audio transcriptions, and timestamps. Use ALL of this information to answer ANY query."
    case 5 => ""
    case 6 => "TAGS represent detected objects, people, places, activities, and concepts in images/videos:"
    case 7 => "- Objects: car, tree, building, furniture, animals, food items"
    case 8 => "- People: person, child, adult, groups, faces"
    case 9 => "- Places: park, street, indoor, outdoor, specific locations, landmarks"
    case 10 => "- Activities: walking, eating, playing, sports, events"
    case 11 => "- Concepts: weather conditions, colors, emotions, time of day"
    case _ => ""
  }

  function Preamble(): seq<string> {
    seq(13, (i: int) requires 0 <= i < 13 => PreambleLine(i))
  }

  /** Line `i` of the fixed instructions that close the context. */
  function ClosingLine(i: nat): string {
    match i
    case 0 => ""
    case 1 => "Answer queries using descriptions, tags, GPS coordinates, timestamps, and audio transcripts."
    case 2 => "Reference specific image/video numbers. Be conversational and helpful."
    case _ => ""
  }

  function Closing(): seq<string> {
    seq(3, (i: int) requires 0 <= i < 3 => ClosingLine(i))
  }

  datatype Stats = Stats(
    images: nat, videos: nat, taggedImages: nat, taggedVideos: nat,
    locatedImages: nat, locatedVideos: nat, voicedImages: nat, voicedVideos: nat)

  /** The eight counts of the collection overview; the location counts
      treat a zero coordinate as missing. */
  function StatsOf(images: seq<ImageRecord>, videos: seq<VideoRecord>, audios: seq<AudioRecord>): Stats
  {
    Stats(|images|, |videos|, Count(images, IsTagged), Count(videos, VideoIsTagged),
          Count(images, ImageLocated), Count(videos, VideoLocated),
          Count(images, ImageVoiced(audios)), Count(videos, VideoVoiced(audios)))
  }

  /** The analysed count and the pending count add up to the total, and an
      item counted as located or voiced is one of the fetched items; the
      located images are among those `has_location` accepts. */
  lemma StatsFacts(images: seq<ImageRecord>, videos: seq<VideoRecord>, audios: seq<AudioRecord>)
    ensures var s := StatsOf(images, videos, audios);
      s.images == |images| && s.videos == |videos|
      && s.taggedImages + |Filter(images, IsUntagged)| == s.images
      && s.taggedVideos + |Filter(videos, VideoIsUntagged)| == s.videos
      && s.locatedImages <= |Filter(images, HasLocation)|
      && s.locatedImages <= s.images && s.locatedVideos <= s.videos
      && s.voicedImages <= s.images && s.voicedVideos <= s.videos
  {
    CountIsFilterLength(images, IsTagged);
    CountIsFilterLength(videos, VideoIsTagged);
    CountIsFilterLength(images, ImageLocated);
    CountIsFilterLength(videos, VideoLocated);
    CountIsFilterLength(images, ImageVoiced(audios));
    CountIsFilterLength(videos, VideoVoiced(audios));
    FilterComplement(images, IsTagged, IsUntagged);
    FilterComplement(videos, VideoIsTagged, VideoIsUntagged);
    LocatedSubset(images);
  }

  /** Line `i` of the collection overview. */
  function OverviewLine(s: Stats, i: nat): string {
    match i
    case 0 => "COLLECTION OVERVIEW:"
    case 1 => "• Total Images: " + NatToString(s.images)
    case 2 => "• Total Videos: " + NatToString(s.videos)
    case 3 => "• AI-Analyzed Images: " + NatToString(s.taggedImages)
    case 4 => "• AI-Analyzed Videos: " + NatToString(s.taggedVideos)
    case 5 => "• Images with GPS Location: " + NatToString(s.locatedImages)
    case 6 => "• Videos with GPS Location: " + NatToString(s.locatedVideos)
    case 7 => "• Images with Audio: " + NatToString(s.voicedImages)
    case 8 => "• Videos with Audio: " + NatToString(s.voicedVideos)
    case 10 => "DETAILED MEDIA DATA:"
    case _ => ""
  }

  function OverviewLines(s: Stats): seq<string> {
    seq(12, (i: int) requires 0 <= i < 12 => OverviewLine(s, i))
  }

  /** The lines of the context for the fetched items, with a block for
      every second image and every second video. */
  function ContextLines(images: seq<ImageRecord>, videos: seq<VideoRecord>, audios: seq<AudioRecord>,
                        show: Show): seq<string>
  {
    Preamble() + OverviewLines(StatsOf(images, videos, audios))
    + Details(images, |images|, ImageBlockOf(audios, show))
    + Details(videos, |videos|, VideoBlockOf(audios, show))
    + Closing()
  }

  /** `get_all_images(limit=300)` and `get_all_videos(limit=200)`. */
  function CollectionImages(images: seq<ImageRecord>): seq<ImageRecord> {
    Select(images, ImageRepo.AnyImage, ImageTime, 0, ImageLimit)
  }

  function CollectionVideos(videos: seq<VideoRecord>): seq<VideoRecord> {
    Select(videos, VideoRepo.AnyVideo, VideoTime, 0, VideoLimit)
  }

  /** At most 300 images and 200 videos are read, newest first. */
  lemma CollectionBounds(images: seq<ImageRecord>, videos: seq<VideoRecord>)
    ensures |CollectionImages(images)| <= ImageLimit && SortedDesc(CollectionImages(images), ImageTime)
    ensures |CollectionVideos(videos)| <= VideoLimit && SortedDesc(CollectionVideos(videos), VideoTime)
    ensures |images| <= ImageLimit ==> CollectionImages(images) == SortDesc(images, ImageTime)
  {
    FilterAll(images, ImageRepo.AnyImage);
  }

  // ---------------------------------------------------------------------
  // Location truthiness.

  lemma LocatedSubset(images: seq<ImageRecord>)
    ensures |Filter(images, ImageLocated)| <= |Filter(images, HasLocation)|
  {
    LocatedImpliesHasLocation(images);
  }

  /** Every image the overview counts as located has a location in the
      sense of `has_location`; filtering by the stronger test keeps fewer. */
  lemma {:induction false} LocatedImpliesHasLocation(images: seq<ImageRecord>)
    ensures |Filter(images, ImageLocated)| <= |Filter(images, HasLocation)|
    ensures forall x | x in Filter(images, ImageLocated) :: HasLocation(x)
  {
    if images != [] {
      LocatedImpliesHasLocation(images[1..]);
      assert images == [images[0]] + images[1..];
      FilterConcat([images[0]], images[1..], ImageLocated);
      FilterConcat([images[0]], images[1..], HasLocation);
      FilterSingle(images[0], ImageLocated);
      FilterSingle(images[0], HasLocation);
    }
  }

  /** A zero coordinate is a location for `has_location` but not for the
      overview or the GPS line. */
  lemma ZeroCoordinateNotLocated(x: ImageRecord)
    requires x.latitude == Some(0.0) && x.longitude.Some?
    ensures HasLocation(x) && !ImageLocated(x)
    ensures GpsLines(ImageLocated(x), x.latitude, x.longitude, Show(t => "", r => "")) == []
  {
  }

  // ---------------------------------------------------------------------
  // The conversation.

  /** `chat_history[-10:]`. */
  function Recent(h: seq<Exchange>): (w: seq<Exchange>)
    ensures |w| == Min(HistoryWindow, |h|)
    ensures w == h[|h| - |w|..]
  {
    if |h| <= HistoryWindow then h else h[|h| - HistoryWindow..]
  }

  /** Two lines per exchange, in order. */
  function HistoryLines(h: seq<Exchange>): (lines: seq<string>)
    ensures |lines| == 2 * |h|
    ensures forall k | 0 <= k < |h| ::
      lines[2 * k] == "User: " + h[k].user && lines[2 * k + 1] == "Assistant: " + h[k].assistant
  {
    if h == [] then []
    else HistoryLines(h[..|h| - 1]) + ["User: " + h[|h| - 1].user, "Assistant: " + h[|h| - 1].assistant]
  }

  /** The prompt sent to the model. */
  function Prompt(context: string, history: seq<Exchange>, message: string): string {
    Join([context, "\nConversation History:"] + HistoryLines(Recent(history))
         + ["\nUser: " + message + "\nAssistant:"], "\n")
  }

  /** Appending an exchange slides the window: the oldest exchange drops
      out once ten are shown. */
  lemma RecentSlides(h: seq<Exchange>, e: Exchange)
    ensures |h| < HistoryWindow ==> Recent(h + [e]) == Recent(h) + [e]
    ensures |h| >= HistoryWindow ==> Recent(h + [e]) == Recent(h)[1..] + [e]
  {
    var g := h + [e];
    if |h| >= HistoryWindow {
      assert g[|g| - HistoryWindow..] == h[|h| - HistoryWindow..][1..] + [e];
    }
  }

  class ChatAgent {
    var contextCache: Option<string>
    var chatHistory: seq<Exchange>

    /** A fresh agent has no cached context and no history. */
    constructor ()
      ensures contextCache == None && chatHistory == []
    {
      contextCache := None;
      chatHistory := [];
    }

    /** `clear_context_cache`: the next `prepare_context` rebuilds. */
    method ClearContextCache()
      modifies this
      ensures contextCache == None && chatHistory == old(chatHistory)
    {
      contextCache := None;
    }

    /** `prepare_context`. A non-empty cached context is returned as it is,
        without reading the store. Otherwise the context is built from the
        newest 300 images and 200 videos; the video loop fails at the
        second video, leaving the cache as it was. */
    method PrepareContext(store: Store, show: Show) returns (r: Result<string, ContextError>)
      modifies this
      ensures chatHistory == old(chatHistory)
      ensures r == Prepared(old(contextCache), store.images, store.videos, store.audios, show)
      ensures contextCache == if r.Success? then Some(r.value) else old(contextCache)
    {
      r, contextCache := PrepareFrom(contextCache, store, show);
    }

    /** `generate_response`. The prompt holds the context, the last ten
        exchanges and the new message. A reply is stripped and recorded;
        an exception becomes an apology and the history stays as it was. */
    method GenerateResponse(userMessage: string, context: string, generate: string -> Result<string, string>)
      returns (reply: string)
      modifies this
      ensures contextCache == old(contextCache)
      ensures var g := generate(Prompt(context, old(chatHistory), userMessage));
        (g.Success? ==> reply == Strip(g.value) && chatHistory == old(chatHistory) + [Exchange(userMessage, reply)])
        && (g.Failure? ==> reply == ApologyPrefix + g.error && chatHistory == old(chatHistory))
    {
      var conversation := [context, "\nConversation History:"];
      var recent := Recent(chatHistory);
      var k := 0;
      while k < |recent|
        invariant 0 <= k <= |recent|
        invariant conversation == [context, "\nConversation History:"] + HistoryLines(recent[..k])
      {
        assert recent[..k + 1][..k] == recent[..k];
        conversation := conversation + ["User: " + recent[k].user];
        conversation := conversation + ["Assistant: " + recent[k].assistant];
        k := k + 1;
      }
      assert recent[..k] == recent;
      conversation := conversation + ["\nUser: " + userMessage + "\nAssistant:"];
      var prompt := Join(conversation, "\n");
      var response := generate(prompt);
      if response.Failure? {
        return ApologyPrefix + response.error;
      }
      reply := Strip(response.value);
      chatHistory := chatHistory + [Exchange(userMessage, reply)];
    }
  }

  /** The outcome of building the context from the fetched items: the
      video loop fails as soon as there is a second video. */
  function ContextFor(images: seq<ImageRecord>, videos: seq<VideoRecord>, audios: seq<AudioRecord>, show: Show)
    : Result<string, ContextError>
  {
    if |videos| >= 2 then Failure(VideoInfoUnbound) else Success(Join(ContextLines(images, videos, audios, show), "\n"))
  }

  /** The outcome of `prepare_context` with the given cache: a non-empty
      cached context as it is, otherwise the context built from the store. */
  function Prepared(cache: Option<string>, images: seq<ImageRecord>, videos: seq<VideoRecord>,
                    audios: seq<AudioRecord>, show: Show): Result<string, ContextError>
  {
    if Truthy(cache) then Success(cache.value)
    else ContextFor(CollectionImages(images), CollectionVideos(videos), audios, show)
  }

  /** `prepare_context` over a cache value, without the cache update. */
  method PrepareFrom(cache: Option<string>, store: Store, show: Show)
    returns (r: Result<string, ContextError>, cache': Option<string>)
    ensures r == Prepared(cache, store.images, store.videos, store.audios, show)
    ensures cache' == if r.Success? then Some(r.value) else cache
  {
    if Truthy(cache) {
      return Success(cache.value), cache;
    }
    var images := CollectionImages(store.images);
    var videos := CollectionVideos(store.videos);
    r := BuildContext(images, videos, store.audios, show);
    cache' := if r.Success? then Some(r.value) else cache;
  }

  /** The body of `prepare_context` after the cache check, over the
      fetched images and videos and the audio table. */
  method BuildContext(images: seq<ImageRecord>, videos: seq<VideoRecord>, audios: seq<AudioRecord>, show: Show)
    returns (r: Result<string, ContextError>)
    ensures r == ContextFor(images, videos, audios, show)
  {
    var overview := Overview(images, videos, audios);
    var parts := Preamble() + overview;
    var details := RenderImageDetails(images, audios, show);
    parts := parts + details;
    var videoDetails := RenderVideoDetails(videos, audios, show);
    if videoDetails.Failure? {
      return Failure(videoDetails.error);
    }
    parts := parts + videoDetails.value;
    parts := parts + Closing();
    r := Success(Join(parts, "\n"));
  }

  /** The collection overview lines: the comprehensions and the two audio
      loops. */
  method Overview(images: seq<ImageRecord>, videos: seq<VideoRecord>, audios: seq<AudioRecord>)
    returns (lines: seq<string>)
    ensures lines == OverviewLines(StatsOf(images, videos, audios))
  {
    var taggedImages := Filter(images, IsTagged);
    var taggedVideos := Filter(videos, VideoIsTagged);
    var imagesWithLocation := Filter(images, ImageLocated);
    var videosWithLocation := Filter(videos, VideoLocated);
    var imagesWithAudio := CollectVoicedImages(images, audios);
    var videosWithAudio := CollectVoicedVideos(videos, audios);
    CountIsFilterLength(images, IsTagged);
    CountIsFilterLength(videos, VideoIsTagged);
    CountIsFilterLength(images, ImageLocated);
    CountIsFilterLength(videos, VideoLocated);
    CountIsFilterLength(images, ImageVoiced(audios));
    CountIsFilterLength(videos, VideoVoiced(audios));
    var stats := Stats(|images|, |videos|, |taggedImages|, |taggedVideos|, |imagesWithLocation|,
                       |videosWithLocation|, |imagesWithAudio|, |videosWithAudio|);
    lines := OverviewLines(stats);
  }

  /** The images counted as "with Audio", in fetch order. */
  method CollectVoicedImages(images: seq<ImageRecord>, audios: seq<AudioRecord>) returns (r: seq<ImageRecord>)
    ensures r == Filter(images, ImageVoiced(audios))
  {
    r := [];
    var k := 0;
    while k < |images|
      invariant 0 <= k <= |images|
      invariant r == Filter(images[..k], ImageVoiced(audios))
    {
      var image := images[k];
      FilterSnoc(images, k, ImageVoiced(audios));
      if Truthy(image.audioId) {
        var t := TranscriptionOf(audios, image.audioId.value);
        if Truthy(t) {
          r := r + [image];
        }
      }
      k := k + 1;
    }
    assert images[..k] == images;
  }

  /** The videos counted as "with Audio", in fetch order. */
  method CollectVoicedVideos(videos: seq<VideoRecord>, audios: seq<AudioRecord>) returns (r: seq<VideoRecord>)
    ensures r == Filter(videos, VideoVoiced(audios))
  {
    r := [];
    var k := 0;
    while k < |videos|
      invariant 0 <= k <= |videos|
      invariant r == Filter(videos[..k], VideoVoiced(audios))
    {
      var video := videos[k];
      FilterSnoc(videos, k, VideoVoiced(audios));
      if Truthy(video.audioId) {
        var t := TranscriptionOf(audios, video.audioId.value);
        if Truthy(t) {
          r := r + [video];
        }
      }
      k := k + 1;
    }
    assert videos[..k] == videos;
  }

  /** The AUDIO line of a block, when the linked transcription is not
      blank. */
  method RenderAudio(audios: seq<AudioRecord>, audioId: Option<string>) returns (lines: seq<string>)
    ensures lines == AudioLines(audios, audioId)
  {
    lines := [];
    if Truthy(audioId) {
      var t := TranscriptionOf(audios, audioId.value);
      if t.Some? && Strip(t.value) != "" {
        lines := ["AUDIO: \"" + Strip(t.value) + "\""];
      }
    }
  }

  /** The video detail loop as written. Its body appends to `video_info`,
      which no statement binds, so the first even position raises; with at
      most one video there is no block to write. */
  method RenderVideoDetails(videos: seq<VideoRecord>, audios: seq<AudioRecord>, show: Show)
    returns (r: Result<seq<string>, ContextError>)
    ensures r.Failure? <==> |videos| >= 2
    ensures r.Failure? ==> r.error == VideoInfoUnbound
    ensures r.Success? ==> r.value == Details(videos, |videos|, VideoBlockOf(audios, show))
  {
    var k := 0;
    while k < |videos|
      invariant 0 <= k <= |videos| && k <= 1
    {
      var i := k + 1;
      if i % 2 != 0 {
        k := k + 1;
        continue;
      }
      return Failure(VideoInfoUnbound);
    }
    r := Success([]);
  }

  /** One image's block, built line by line as the detail loop does. */
  method RenderImage(i: nat, image: ImageRecord, audios: seq<AudioRecord>, show: Show) returns (info: seq<string>)
    ensures info == ImageBlock(i, image, audios, show)
  {
    var head := ["IMAGE #" + NatToString(i) + ":", "TIMESTAMP: " + show.time(image.timestamp)];
    info := [head[0]];
    info := info + [head[1]];
    if Truthy(image.description) {
      info := info + ["DESCRIPTION: " + image.description.value];
    } else {
      info := info + ["DESCRIPTION: " + Placeholder];
    }
    assert info == head + [DescriptionLine(image.description)];
    ghost var done := info;
    if image.tags != [] {
      info := info + ["TAGS: " + Join(image.tags, ", ")];
    }
    assert info == done + TagLines(image.tags);
    done := info;
    if ImageLocated(image) {
      info := info + ["GPS: " + show.number(image.latitude.value) + ", " + show.number(image.longitude.value)];
    }
    assert info == done + GpsLines(ImageLocated(image), image.latitude, image.longitude, show);
    done := info;
    var audio := RenderAudio(audios, image.audioId);
    info := info + audio;
    assert info == done + AudioLines(audios, image.audioId);
    info := info + [Status(image.tagged)];
  }

  /** The image detail loop: a block for every second image. */
  method RenderImageDetails(images: seq<ImageRecord>, audios: seq<AudioRecord>, show: Show)
    returns (lines: seq<string>)
    ensures lines == Details(images, |images|, ImageBlockOf(audios, show))
  {
    lines := [];
    var k := 0;
    while k < |images|
      invariant 0 <= k <= |images|
      invariant lines == Details(images, k, ImageBlockOf(audios, show))
    {
      var more := RenderImagePosition(images, k, audios, show);
      lines := lines + more;
      k := k + 1;
    }
  }

  /** One pass of the image detail loop: the image at 1-based position
      `k + 1` is skipped when that position is odd. */
  method RenderImagePosition(images: seq<ImageRecord>, k: nat, audios: seq<AudioRecord>, show: Show)
    returns (more: seq<string>)
    requires k < |images|
    ensures Details(images, k + 1, ImageBlockOf(audios, show))
         == Details(images, k, ImageBlockOf(audios, show)) + more
  {
    var i := k + 1;
    if i % 2 != 0 {
      DetailsOddStep(images, k + 1, ImageBlockOf(audios, show));
      return [];
    }
    var info := RenderImage(i, images[k], audios, show);
    ImageDetailsStep(images, k, audios, show, info);
    more := info + [""];
  }
}
