/** `AudioRepository`: the rows of the `audio` table, one per recorded
    transcription. Creation, the `update_audio` write path and deletion
    change the table; the queries are selections over it. */
module AudioRepo {
  import opened Wrappers
  import opened Records
  import opened Seqs
  import opened Text
  import opened MediaStore

  function AnyAudio(a: AudioRecord): bool { true }

  /** `transcription.contains(term)`: SQLite's `LIKE '%term%'`, which
      ignores ASCII case; a NULL transcription never matches. */
  predicate Mentions(a: AudioRecord, term: string) {
    a.transcription.Some? && ContainsIgnoreCase(a.transcription.value, term)
  }

  function MentionsTerm(term: string): AudioRecord -> bool {
    a => Mentions(a, term)
  }

  /** `transcription IS NOT NULL AND transcription != ''`. */
  function HasText(a: AudioRecord): bool {
    a.transcription.Some? && a.transcription.value != ""
  }

  /** `transcription IS NULL OR transcription = ''`. */
  function LacksText(a: AudioRecord): bool {
    a.transcription.None? || a.transcription.value == ""
  }

  /** No audio row carries an embedding; `create_audio` never writes one. */
  ghost predicate NoEmbeddings(audios: seq<AudioRecord>) {
    forall a | a in audios :: a.embedding.None?
  }

  class AudioRepository {
    const store: Store

    constructor (store: Store)
      ensures this.store == store
    {
      this.store := store;
    }

    /** `create_audio`: one new row holding `transcription` (possibly
        None) and no embedding. */
    method CreateAudio(random: nat, now: int, transcription: Option<string> := None)
      returns (r: Result<AudioRecord, DbError>)
      requires store.Valid()
      modifies store
      ensures store.Valid()
      ensures store.images == old(store.images) && store.videos == old(store.videos)
      ensures r.Failure? <==> HasKey(old(store.audios), AudioId, Uuid4(random))
      ensures r.Failure? ==> r.error == DuplicateKey && store.audios == old(store.audios)
      ensures r.Success? ==> store.audios == old(store.audios) + [r.value]
      ensures r.Success? ==> (r.value.id == Uuid4(random) && IsUuid4(r.value.id) && r.value.timestamp == now
                              && r.value.transcription == transcription && r.value.embedding.None?)
      ensures NoEmbeddings(old(store.audios)) ==> NoEmbeddings(store.audios)
    {
      var id := Uuid4(random);
      if HasKey(store.audios, AudioId, id) {
        return Failure(DuplicateKey);
      }
      var a := AudioRecord(id, now, transcription, None);
      AppendKeepsKeys(store.audios, AudioId, a);
      store.audios := store.audios + [a];
      r := Success(a);
    }

    /** `get_audio_by_id`: None for an absent id. */
    function GetAudioById(audioId: string): (r: Option<AudioRecord>)
      reads store
      ensures r.Some? <==> exists a | a in store.audios :: a.id == audioId
      ensures r.Some? ==> r.value in store.audios && r.value.id == audioId
    {
      HasKeyMember(store.audios, AudioId, audioId);
      Lookup(store.audios, AudioId, audioId)
    }

    /** `get_all_audio`: newest first, then OFFSET and LIMIT. */
    function GetAllAudio(skip: int := 0, limit: int := 100): (r: seq<AudioRecord>)
      reads store
      ensures r == Select(store.audios, AnyAudio, AudioTime, skip, limit)
      ensures SortedDesc(r, AudioTime)
      ensures forall a | a in r :: a in store.audios
      ensures limit >= 0 ==> |r| <= limit
      ensures skip <= 0 && limit < 0 ==> forall a | a in store.audios :: a in r
    {
      FilterAll(store.audios, AnyAudio);
      Select(store.audios, AnyAudio, AudioTime, skip, limit)
    }

    /** `search_audio_by_transcription`. */
    function SearchAudioByTranscription(searchTerm: string, skip: int := 0, limit: int := 100)
      : (r: seq<AudioRecord>)
      reads store
      ensures r == Select(store.audios, MentionsTerm(searchTerm), AudioTime, skip, limit)
      ensures forall a | a in r ::
        a in store.audios && a.transcription.Some? && ContainsIgnoreCase(a.transcription.value, searchTerm)
      ensures SortedDesc(r, AudioTime)
      ensures limit >= 0 ==> |r| <= limit
      ensures skip <= 0 && limit < 0 ==> forall a | a in store.audios && Mentions(a, searchTerm) :: a in r
    {
      Select(store.audios, MentionsTerm(searchTerm), AudioTime, skip, limit)
    }

    /** `get_recent_audio`: at most `limit` rows, newest first. */
    function GetRecentAudio(limit: int := 10): (r: seq<AudioRecord>)
      reads store
      ensures r == Select(store.audios, AnyAudio, AudioTime, 0, limit)
      ensures SortedDesc(r, AudioTime)
      ensures limit >= 0 ==> |r| == Min(limit, |store.audios|)
      ensures forall a | a in r :: a in store.audios
    {
      FilterAll(store.audios, AnyAudio);
      var t := SortDesc(Filter(store.audios, AnyAudio), AudioTime);
      assert |Page(t, 0, limit)| == |Select(store.audios, AnyAudio, AudioTime, 0, limit)|;
      Select(store.audios, AnyAudio, AudioTime, 0, limit)
    }

    /** `get_audio_with_transcription`. */
    function GetAudioWithTranscription(skip: int := 0, limit: int := 100): (r: seq<AudioRecord>)
      reads store
      ensures r == Select(store.audios, HasText, AudioTime, skip, limit)
      ensures forall a | a in r :: a in store.audios && a.transcription.Some? && a.transcription.value != ""
      ensures SortedDesc(r, AudioTime)
      ensures limit >= 0 ==> |r| <= limit
      ensures skip <= 0 && limit < 0 ==> forall a | a in store.audios && HasText(a) :: a in r
    {
      Select(store.audios, HasText, AudioTime, skip, limit)
    }

    /** `get_audio_without_transcription`. */
    function GetAudioWithoutTranscription(skip: int := 0, limit: int := 100): (r: seq<AudioRecord>)
      reads store
      ensures r == Select(store.audios, LacksText, AudioTime, skip, limit)
      ensures forall a | a in r :: a in store.audios && (a.transcription.None? || a.transcription.value == "")
      ensures SortedDesc(r, AudioTime)
      ensures limit >= 0 ==> |r| <= limit
      ensures skip <= 0 && limit < 0 ==> forall a | a in store.audios && LacksText(a) :: a in r
    {
      Select(store.audios, LacksText, AudioTime, skip, limit)
    }

    /** `count_audio`. */
    function CountAudio(): (n: nat)
      reads store
      ensures n == |GetAllAudio(0, -1)|
    {
      FilterAll(store.audios, AnyAudio);
      |store.audios|
    }

    /** `update_audio`: without a transcription nothing is written and the
        current row is returned; a transcription is keyed by the column
        object `AudioModel.transcription`, which `values(**update_data)`
        rejects before anything is written. */
    method UpdateAudio(audioId: string, transcription: Option<string> := None)
      returns (r: Result<Option<AudioRecord>, DbError>)
      ensures transcription.None? ==> r == Success(GetAudioById(audioId))
      ensures transcription.Some? ==> r == Failure(NonStringKeyword)
    {
      if transcription.None? {
        return Success(GetAudioById(audioId));
      }
      r := Failure(NonStringKeyword);
    }

    /** `delete_audio`: True iff a row with that id existed; every such row
        is removed. */
    method DeleteAudio(audioId: string) returns (deleted: bool)
      requires store.Valid()
      modifies store
      ensures store.Valid()
      ensures store.images == old(store.images) && store.videos == old(store.videos)
      ensures deleted <==> HasKey(old(store.audios), AudioId, audioId)
      ensures store.audios == Without(old(store.audios), AudioId, audioId)
      ensures !deleted ==> store.audios == old(store.audios)
    {
      deleted := HasKey(store.audios, AudioId, audioId);
      if !deleted {
        WithoutAbsent(store.audios, AudioId, audioId);
      }
      WithoutKeepsKeys(store.audios, AudioId, audioId);
      store.audios := Without(store.audios, AudioId, audioId);
    }
  }

  /** The with- and without-transcription queries split the table: their
      lengths add up to the count, and they return only table rows. */
  lemma TranscriptionPartition(repo: AudioRepository)
    ensures |repo.GetAudioWithTranscription(0, -1)| + |repo.GetAudioWithoutTranscription(0, -1)|
         == repo.CountAudio()
    ensures forall a | a in repo.GetAudioWithTranscription(0, -1) :: a in repo.store.audios
    ensures forall a | a in repo.GetAudioWithoutTranscription(0, -1) :: a in repo.store.audios
    ensures forall a | a in repo.store.audios ::
      a in repo.GetAudioWithTranscription(0, -1) || a in repo.GetAudioWithoutTranscription(0, -1)
  {
    FilterComplement(repo.store.audios, HasText, LacksText);
  }

  /** Every row falls in exactly one of the two unpaged queries. */
  lemma TranscriptionExclusive(repo: AudioRepository)
    ensures forall a | a in repo.store.audios ::
      (a in repo.GetAudioWithTranscription(0, -1)) != (a in repo.GetAudioWithoutTranscription(0, -1))
  {
    var w := repo.GetAudioWithTranscription(0, -1);
    var wo := repo.GetAudioWithoutTranscription(0, -1);
    forall a | a in repo.store.audios ensures (a in w) != (a in wo) {
      if HasText(a) {
        assert a in w;
      } else {
        assert a in wo;
      }
    }
  }

  /** The search does not depend on the case of ASCII letters. */
  lemma SearchIgnoresCase(a: AudioRecord, t1: string, t2: string)
    requires Lower(t1) == Lower(t2)
    ensures Mentions(a, t1) == Mentions(a, t2)
  {
  }
}
