/** The rows of the three tables: `images` (ImageModel), `videos`
    (VideoModel) and `audio` (AudioModel). Timestamps are whole numbers
    (`datetime.utcnow()` as a tick count), coordinates, fps and durations
    are exact reals. */
module Records {
  import opened Wrappers

  /** A JSON value, as stored in the JSON columns. */
  datatype Json =
    | JNull
    | JBool(b: bool)
    | JNum(n: real)
    | JStr(s: string)
    | JArr(items: seq<Json>)
    | JObj(fields: map<string, Json>)

  datatype ImageRecord = ImageRecord(
    id: string,
    timestamp: int,
    tagged: bool,
    embeddings: Option<Json>,
    description: Option<string>,
    tags: seq<string>,
    path: string,
    audioId: Option<string>,
    latitude: Option<real>,
    longitude: Option<real>)

  datatype VideoRecord = VideoRecord(
    id: string,
    timestamp: int,
    frames: Option<seq<string>>,
    fps: real,
    duration: Option<real>,
    tags: seq<string>,
    tagged: bool,
    description: Option<string>,
    embeddings: Option<Json>,
    audioId: Option<string>,
    latitude: Option<real>,
    longitude: Option<real>)

  datatype AudioRecord = AudioRecord(
    id: string,
    timestamp: int,
    transcription: Option<string>,
    embedding: Option<seq<real>>)

  // Primary keys and sort keys, named so that every use denotes the same
  // function.
  function ImageId(r: ImageRecord): string { r.id }
  function VideoId(r: VideoRecord): string { r.id }
  function AudioId(r: AudioRecord): string { r.id }
  function ImageTime(r: ImageRecord): real { r.timestamp as real }
  function VideoTime(r: VideoRecord): real { r.timestamp as real }
  function AudioTime(r: AudioRecord): real { r.timestamp as real }
  function IsTagged(r: ImageRecord): bool { r.tagged }
  function IsUntagged(r: ImageRecord): bool { !r.tagged }
  function VideoIsTagged(r: VideoRecord): bool { r.tagged }
  function VideoIsUntagged(r: VideoRecord): bool { !r.tagged }

  /** `ImageModel.has_location`. */
  predicate HasLocation(r: ImageRecord) {
    r.latitude.Some? && r.longitude.Some?
  }

  /** `ImageModel.tag_count`: the number of tags. */
  function TagCount(r: ImageRecord): (n: nat)
    ensures n == |r.tags|
    ensures n == 0 <==> r.tags == []
  {
    if r.tags != [] then |r.tags| else 0
  }

  // ---------------------------------------------------------------------
  // Primary keys: `str(uuid.uuid4())`.

  function HexDigit(d: nat): char
    requires d < 16
  {
    "0123456789abcdef"[d]
  }

  predicate IsHex(c: char) {
    '0' <= c <= '9' || 'a' <= c <= 'f'
  }

  /** The `n` low hexadecimal digits of `r`, most significant first. */
  function Hex(r: nat, n: nat): (s: string)
    ensures |s| == n
    ensures forall i | 0 <= i < n :: IsHex(s[i])
  {
    if n == 0 then "" else Hex(r / 16, n - 1) + [HexDigit(r % 16)]
  }

  /** The canonical text of a version-4 UUID: 32 lower-case hex digits in
      groups of 8-4-4-4-12, version digit `4`, variant digit one of
      `8`, `9`, `a`, `b`. */
  predicate IsUuid4(s: string) {
    |s| == 36
    && s[8] == '-' && s[13] == '-' && s[18] == '-' && s[23] == '-'
    && s[14] == '4' && s[19] in "89ab"
    && forall i | 0 <= i < 36 && i != 8 && i != 13 && i != 18 && i != 23 :: IsHex(s[i])
  }

  /** `str(uuid.uuid4())` for the 122 random bits `r`. */
  function Uuid4(r: nat): (s: string)
    ensures IsUuid4(s)
  {
    var h := Hex(r / 4, 30);
    var s := h[..8] + "-" + h[8..12] + "-4" + h[12..15] + "-" + [HexDigit(8 + r % 4)]
           + h[15..18] + "-" + h[18..];
    assert forall i | 0 <= i < 8 :: s[i] == h[i];
    assert forall i | 9 <= i < 13 :: s[i] == h[i - 1];
    assert forall i | 15 <= i < 18 :: s[i] == h[i - 3];
    assert forall i | 20 <= i < 23 :: s[i] == h[i - 5];
    assert forall i | 24 <= i < 36 :: s[i] == h[i - 6];
    s
  }
}
