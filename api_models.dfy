/** The request bodies of the HTTP API and their field constraints. A body
    is built from already-typed inputs; building it either yields the model
    or lists the fields whose constraint failed. */
module ApiModels {
  import opened Wrappers
  import opened Records
  import ImageRepo

  /** A field whose constraint failed (or, for `audio`, that is missing). */
  datatype FieldName = Latitude | Longitude | Fps | Duration | Audio

  /** `Field(ge=lo, le=hi)` on an optional float: None is always accepted. */
  predicate Within(x: Option<real>, lo: real, hi: real) {
    x.None? || (lo <= x.value && x.value <= hi)
  }

  /** `Field(ge=0)` on an optional float. */
  predicate NonNegative(x: Option<real>) {
    x.None? || x.value >= 0.0
  }

  /** `Field(gt=0)` on an optional float. */
  predicate Positive(x: Option<real>) {
    x.None? || x.value > 0.0
  }

  function Check(ok: bool, f: FieldName): (errs: seq<FieldName>)
    ensures f in errs <==> !ok
    ensures |errs| <= 1
  {
    if ok then [] else [f]
  }

  /** Latitude within [-90, 90] and longitude within [-180, 180]. */
  function CoordinateErrors(latitude: Option<real>, longitude: Option<real>): (errs: seq<FieldName>)
    ensures Latitude in errs <==> !Within(latitude, -90.0, 90.0)
    ensures Longitude in errs <==> !Within(longitude, -180.0, 180.0)
    ensures forall f | f in errs :: f == Latitude || f == Longitude
  {
    Check(Within(latitude, -90.0, 90.0), Latitude) + Check(Within(longitude, -180.0, 180.0), Longitude)
  }

  // ---------------------------------------------------------------------
  // Images.

  datatype ImageBase = ImageBase(
    description: Option<string>, tags: seq<string>, embeddings: Option<Json>, tagged: bool,
    audioId: Option<string>, latitude: Option<real>, longitude: Option<real>)

  /** `ImageBase(...)`: every field has a default; only the coordinates are
      constrained. */
  function NewImageBase(description: Option<string> := None, tags: seq<string> := [],
                        embeddings: Option<Json> := None, tagged: bool := false,
                        audioId: Option<string> := None, latitude: Option<real> := None,
                        longitude: Option<real> := None): (r: Result<ImageBase, seq<FieldName>>)
    ensures r.Success? <==> Within(latitude, -90.0, 90.0) && Within(longitude, -180.0, 180.0)
    ensures r.Success? ==> r.value == ImageBase(description, tags, embeddings, tagged, audioId, latitude, longitude)
    ensures r.Failure? ==> r.error == CoordinateErrors(latitude, longitude)
  {
    var errs := CoordinateErrors(latitude, longitude);
    if errs == [] then Success(ImageBase(description, tags, embeddings, tagged, audioId, latitude, longitude))
    else Failure(errs)
  }

  /** An empty body gives no tags, an untagged image and nothing else set. */
  lemma ImageBaseDefaults()
    ensures NewImageBase() == Success(ImageBase(None, [], None, false, None, None, None))
  {
    assert CoordinateErrors(None, None) == [];
  }

  datatype ImageUpdate = ImageUpdate(
    description: Option<string>, tags: Option<seq<string>>, embeddings: Option<Json>,
    tagged: Option<bool>, audioId: Option<string>, latitude: Option<real>, longitude: Option<real>)

  function NewImageUpdate(description: Option<string> := None, tags: Option<seq<string>> := None,
                          embeddings: Option<Json> := None, tagged: Option<bool> := None,
                          audioId: Option<string> := None, latitude: Option<real> := None,
                          longitude: Option<real> := None): (r: Result<ImageUpdate, seq<FieldName>>)
    ensures r.Success? <==> Within(latitude, -90.0, 90.0) && Within(longitude, -180.0, 180.0)
    ensures r.Success? ==> r.value == ImageUpdate(description, tags, embeddings, tagged, audioId, latitude, longitude)
    ensures r.Failure? ==> r.error == CoordinateErrors(latitude, longitude)
  {
    var errs := CoordinateErrors(latitude, longitude);
    if errs == [] then Success(ImageUpdate(description, tags, embeddings, tagged, audioId, latitude, longitude))
    else Failure(errs)
  }

  /** The column changes an update carries (the audio link is passed to
      the repository separately). */
  function ImageChangesOf(u: ImageUpdate): (c: ImageRepo.ImageChanges)
    ensures c.description == u.description && c.tags == u.tags && c.embeddings == u.embeddings
    ensures c.tagged == u.tagged && c.latitude == u.latitude && c.longitude == u.longitude
  {
    ImageRepo.ImageChanges(u.description, u.tags, u.embeddings, u.tagged, u.latitude, u.longitude)
  }

  /** An update built from an empty body changes no column of any image. */
  lemma EmptyImageUpdateChangesNothing(image: ImageRecord)
    ensures NewImageUpdate().Success?
    ensures NewImageUpdate().value.audioId.None?
    ensures ImageRepo.ApplyChanges(image, ImageChangesOf(NewImageUpdate().value)) == image
  {
    assert CoordinateErrors(None, None) == [];
    ImageRepo.ApplyNoChanges(image, ImageChangesOf(NewImageUpdate().value));
  }

  // ---------------------------------------------------------------------
  // Videos.

  datatype VideoBase = VideoBase(
    description: Option<string>, tags: seq<string>, tagged: bool, fps: real,
    duration: Option<real>, audioId: Option<string>, latitude: Option<real>, longitude: Option<real>)

  /** The constraints shared by `VideoBase` and its subclasses. */
  function VideoBaseErrors(fps: real, duration: Option<real>, latitude: Option<real>,
                           longitude: Option<real>): (errs: seq<FieldName>)
    ensures errs == [] <==> fps > 0.0 && NonNegative(duration)
                             && Within(latitude, -90.0, 90.0) && Within(longitude, -180.0, 180.0)
    ensures Fps in errs <==> fps <= 0.0
    ensures Duration in errs <==> !NonNegative(duration)
    ensures Audio !in errs
  {
    Check(fps > 0.0, Fps) + Check(NonNegative(duration), Duration) + CoordinateErrors(latitude, longitude)
  }

  function NewVideoBase(description: Option<string> := None, tags: seq<string> := [],
                        tagged: bool := false, fps: real := 60.0, duration: Option<real> := None,
                        audioId: Option<string> := None, latitude: Option<real> := None,
                        longitude: Option<real> := None): (r: Result<VideoBase, seq<FieldName>>)
    ensures r.Success? <==> fps > 0.0 && NonNegative(duration)
                            && Within(latitude, -90.0, 90.0) && Within(longitude, -180.0, 180.0)
    ensures r.Success? ==> r.value == VideoBase(description, tags, tagged, fps, duration, audioId, latitude, longitude)
    ensures r.Failure? ==> r.error == VideoBaseErrors(fps, duration, latitude, longitude)
  {
    var errs := VideoBaseErrors(fps, duration, latitude, longitude);
    if errs == [] then Success(VideoBase(description, tags, tagged, fps, duration, audioId, latitude, longitude))
    else Failure(errs)
  }

  /** The default frame rate is 60 frames per second. */
  lemma VideoBaseDefaults()
    ensures NewVideoBase() == Success(VideoBase(None, [], false, 60.0, None, None, None, None))
  {
    assert VideoBaseErrors(60.0, None, None, None) == [];
  }

  /** The value `frames` takes. The declaration ends in a comma, so its
      default is a one-element tuple holding the `Field(...)` object rather
      than a required field; a list that is given is checked only for its
      element type. */
  datatype Frames = FrameList(frames: seq<string>) | FieldTuple

  datatype VideoCreate = VideoCreate(base: VideoBase, frames: Frames, audio: string)

  function NewVideoCreate(frames: Option<seq<string>>, audio: Option<string>,
                          description: Option<string> := None, tags: seq<string> := [],
                          tagged: bool := false, fps: real := 60.0, duration: Option<real> := None,
                          audioId: Option<string> := None, latitude: Option<real> := None,
                          longitude: Option<real> := None): (r: Result<VideoCreate, seq<FieldName>>)
    ensures r.Success? <==> audio.Some? && fps > 0.0 && NonNegative(duration)
                            && Within(latitude, -90.0, 90.0) && Within(longitude, -180.0, 180.0)
    ensures r.Failure? ==> (Audio in r.error <==> audio.None?)
    ensures r.Success? ==> (r.value.audio == audio.value
      && r.value.base == VideoBase(description, tags, tagged, fps, duration, audioId, latitude, longitude)
      && r.value.frames == (if frames.Some? then FrameList(frames.value) else FieldTuple))
  {
    var errs := VideoBaseErrors(fps, duration, latitude, longitude) + Check(audio.Some?, Audio);
    if errs == [] then
      Success(VideoCreate(VideoBase(description, tags, tagged, fps, duration, audioId, latitude, longitude),
                          if frames.Some? then FrameList(frames.value) else FieldTuple,
                          audio.value))
    else Failure(errs)
  }

  /** `min_length=1` is not in force: an empty frame list and a missing one
      are both accepted. */
  lemma FramesNotRequired(audio: string)
    ensures NewVideoCreate(Some([]), Some(audio)).Success?
    ensures NewVideoCreate(Some([]), Some(audio)).value.frames == FrameList([])
    ensures NewVideoCreate(None, Some(audio)).value.frames == FieldTuple
  {
    assert VideoBaseErrors(60.0, None, None, None) == [];
  }

  /** `audio` has no default. */
  lemma AudioRequired(frames: seq<string>)
    ensures NewVideoCreate(Some(frames), None) == Failure([Audio])
  {
    assert VideoBaseErrors(60.0, None, None, None) == [];
    assert VideoBaseErrors(60.0, None, None, None) + Check(false, Audio) == [Audio];
  }

  /** `VideoUpdate` has no coordinate fields. */
  datatype VideoUpdate = VideoUpdate(
    description: Option<string>, tags: Option<seq<string>>, tagged: Option<bool>,
    fps: Option<real>, duration: Option<real>, audioId: Option<string>)

  function NewVideoUpdate(description: Option<string> := None, tags: Option<seq<string>> := None,
                          tagged: Option<bool> := None, fps: Option<real> := None,
                          duration: Option<real> := None, audioId: Option<string> := None)
    : (r: Result<VideoUpdate, seq<FieldName>>)
    ensures r.Success? <==> Positive(fps) && NonNegative(duration)
    ensures r.Failure? ==> (Fps in r.error <==> !Positive(fps)) && (Duration in r.error <==> !NonNegative(duration))
    ensures r.Success? ==> r.value == VideoUpdate(description, tags, tagged, fps, duration, audioId)
  {
    var errs := Check(Positive(fps), Fps) + Check(NonNegative(duration), Duration);
    if errs == [] then Success(VideoUpdate(description, tags, tagged, fps, duration, audioId))
    else Failure(errs)
  }
}
