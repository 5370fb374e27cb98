/** `ImageRepository`: creation, queries, partial update and deletion of
    rows of the `images` table, and the ranking of images by the similarity
    of their linked audio's embedding to a query embedding. The clock
    (`datetime.utcnow()`) and the random source of `uuid.uuid4()` are
    parameters; the base64 file contents that the repository attaches to
    every returned row are not modelled. */
module ImageRepo {
  import opened Wrappers
  import opened Records
  import opened Seqs
  import opened MediaStore
  import Embedding

  /** The columns `update_image` writes with a string key; `audio_id` is
      absent because it is keyed by a column object. */
  datatype ImageChanges = ImageChanges(
    description: Option<string>,
    tags: Option<seq<string>>,
    embeddings: Option<Json>,
    tagged: Option<bool>,
    latitude: Option<real>,
    longitude: Option<real>)

  predicate NoChanges(c: ImageChanges) {
    c.description.None? && c.tags.None? && c.embeddings.None? && c.tagged.None?
    && c.latitude.None? && c.longitude.None?
  }

  /** One row after `UPDATE ... SET` with the non-None columns of `c`. */
  function ApplyChanges(x: ImageRecord, c: ImageChanges): (y: ImageRecord)
    ensures y.id == x.id && y.timestamp == x.timestamp && y.path == x.path && y.audioId == x.audioId
    ensures y.description == (if c.description.Some? then c.description else x.description)
    ensures y.tags == c.tags.GetOr(x.tags) && y.embeddings == (if c.embeddings.Some? then c.embeddings else x.embeddings)
    ensures y.tagged == c.tagged.GetOr(x.tagged)
    ensures y.latitude == (if c.latitude.Some? then c.latitude else x.latitude)
    ensures y.longitude == (if c.longitude.Some? then c.longitude else x.longitude)
  {
    x.(description := if c.description.Some? then c.description else x.description,
       tags := c.tags.GetOr(x.tags),
       embeddings := if c.embeddings.Some? then c.embeddings else x.embeddings,
       tagged := c.tagged.GetOr(x.tagged),
       latitude := if c.latitude.Some? then c.latitude else x.latitude,
       longitude := if c.longitude.Some? then c.longitude else x.longitude)
  }

  lemma ApplyNoChanges(x: ImageRecord, c: ImageChanges)
    requires NoChanges(c)
    ensures ApplyChanges(x, c) == x
  {
  }

  /** Writing the same changes twice is writing them once. */
  lemma ApplyChangesIdempotent(x: ImageRecord, c: ImageChanges)
    ensures ApplyChanges(ApplyChanges(x, c), c) == ApplyChanges(x, c)
  {
  }

  /** `UPDATE images SET ... WHERE id = :id`. */
  function UpdateWhere(s: seq<ImageRecord>, id: string, c: ImageChanges): (r: seq<ImageRecord>)
    ensures |r| == |s|
    ensures forall i | 0 <= i < |s| :: r[i].id == s[i].id
    ensures forall i | 0 <= i < |s| && s[i].id != id :: r[i] == s[i]
    ensures forall i | 0 <= i < |s| && s[i].id == id :: r[i] == ApplyChanges(s[i], c)
  {
    seq(|s|, i requires 0 <= i < |s| => if s[i].id == id then ApplyChanges(s[i], c) else s[i])
  }

  lemma UpdateWhereKeepsKeys(s: seq<ImageRecord>, id: string, c: ImageChanges)
    requires KeysDistinct(s, ImageId)
    ensures KeysDistinct(UpdateWhere(s, id, c), ImageId)
  {
    var r := UpdateWhere(s, id, c);
    forall i, j | 0 <= i < |r| && 0 <= j < |r| && i != j ensures ImageId(r[i]) != ImageId(r[j]) {
      assert ImageId(s[i]) != ImageId(s[j]);
    }
  }

  /** An update of an absent id, or one without changes, writes nothing. */
  lemma UpdateWhereNoEffect(s: seq<ImageRecord>, id: string, c: ImageChanges)
    requires !HasKey(s, ImageId, id) || NoChanges(c)
    ensures UpdateWhere(s, id, c) == s
  {
    var r := UpdateWhere(s, id, c);
    forall i | 0 <= i < |s| ensures r[i] == s[i] {
      if s[i].id == id {
        assert ImageId(s[i]) == id;
        ApplyNoChanges(s[i], c);
      }
    }
  }

  /** After the update the row holding `id` carries the written columns. */
  lemma UpdateThenGet(s: seq<ImageRecord>, id: string, c: ImageChanges)
    requires HasKey(s, ImageId, id)
    ensures var g := Lookup(UpdateWhere(s, id, c), ImageId, id);
      g.Some? && g.value == ApplyChanges(Lookup(s, ImageId, id).value, c)
  {
    var r := UpdateWhere(s, id, c);
    var i := KeyIndex(s, ImageId, id);
    var k := KeyIndex(r, ImageId, id);
    assert ImageId(r[i]) == id;
    assert k == i;
  }

  // ---------------------------------------------------------------------
  // Similarity search over the join of `images` and `audio`.

  type JoinRow = (ImageRecord, seq<real>)
  type Scored = (ImageRecord, real)

  function Score(p: Scored): real { p.1 }

  function RowImage(p: Scored): ImageRecord { p.0 }

  /** The non-NULL embeddings of the audio rows whose id is `x.audioId`. */
  function LinkedEmbeddings(x: ImageRecord, audios: seq<AudioRecord>): (es: seq<seq<real>>)
    ensures forall e | e in es :: exists a | a in audios :: x.audioId == Some(a.id) && a.embedding == Some(e)
    ensures forall a | a in audios && x.audioId == Some(a.id) && a.embedding.Some? :: a.embedding.value in es
  {
    if audios == [] then []
    else
      var a := audios[0];
      (if x.audioId == Some(a.id) && a.embedding.Some? then [a.embedding.value] else [])
      + LinkedEmbeddings(x, audios[1..])
  }

  function WithImage(x: ImageRecord, es: seq<seq<real>>): (rows: seq<JoinRow>)
    ensures |rows| == |es|
    ensures forall i | 0 <= i < |es| :: rows[i] == (x, es[i])
  {
    seq(|es|, i requires 0 <= i < |es| => (x, es[i]))
  }

  /** `SELECT images.*, audio.embedding FROM images JOIN audio ON
      images.audio_id = audio.id WHERE audio.embedding IS NOT NULL`, in
      image order and then audio order. */
  function JoinRows(images: seq<ImageRecord>, audios: seq<AudioRecord>): (rows: seq<JoinRow>)
    ensures forall row | row in rows ::
      row.0 in images && exists a | a in audios :: row.0.audioId == Some(a.id) && a.embedding == Some(row.1)
    ensures forall x, a | x in images && a in audios && x.audioId == Some(a.id) && a.embedding.Some? ::
      (x, a.embedding.value) in rows
  {
    if images == [] then []
    else
      var head := WithImage(images[0], LinkedEmbeddings(images[0], audios));
      var tail := JoinRows(images[1..], audios);
      WithImageLinked(images[0], audios);
      WithImageComplete(images[0], audios);
      assert forall y | y in images[1..] :: y in images;
      assert forall y | y in images :: y == images[0] || y in images[1..];
      head + tail
  }

  /** Each embedding of a linked audio row yields a row of its image. */
  lemma WithImageComplete(x: ImageRecord, audios: seq<AudioRecord>)
    ensures forall a | a in audios && x.audioId == Some(a.id) && a.embedding.Some? ::
      (x, a.embedding.value) in WithImage(x, LinkedEmbeddings(x, audios))
  {
    var es := LinkedEmbeddings(x, audios);
    forall a | a in audios && x.audioId == Some(a.id) && a.embedding.Some?
      ensures (x, a.embedding.value) in WithImage(x, es)
    {
      var i :| 0 <= i < |es| && es[i] == a.embedding.value;
      assert WithImage(x, es)[i] == (x, a.embedding.value);
    }
  }

  /** The rows of one image pair it with embeddings of its own audio rows. */
  lemma WithImageLinked(x: ImageRecord, audios: seq<AudioRecord>)
    ensures forall row | row in WithImage(x, LinkedEmbeddings(x, audios)) ::
      row.0 == x && exists a | a in audios :: x.audioId == Some(a.id) && a.embedding == Some(row.1)
  {
    var es := LinkedEmbeddings(x, audios);
    forall row | row in WithImage(x, es)
      ensures row.0 == x && exists a | a in audios :: x.audioId == Some(a.id) && a.embedding == Some(row.1)
    {
      var i :| 0 <= i < |es| && WithImage(x, es)[i] == row;
      assert es[i] in es;
    }
  }

  /** No audio row has an embedding: the join is empty. */
  lemma {:induction false} NoEmbeddingsNoRows(images: seq<ImageRecord>, audios: seq<AudioRecord>)
    requires forall a | a in audios :: a.embedding.None?
    ensures JoinRows(images, audios) == []
  {
    if images != [] {
      NoLinkedEmbeddings(images[0], audios);
      NoEmbeddingsNoRows(images[1..], audios);
    }
  }

  lemma {:induction false} NoLinkedEmbeddings(x: ImageRecord, audios: seq<AudioRecord>)
    requires forall a | a in audios :: a.embedding.None?
    ensures LinkedEmbeddings(x, audios) == []
  {
    if audios != [] {
      assert audios[0] in audios;
      NoLinkedEmbeddings(x, audios[1..]);
    }
  }

  /** The `if not audio_embedding: continue` test: a row whose embedding is
      an empty list is skipped. */
  predicate HasEmbedding(row: JoinRow) { row.1 != [] }

  /** The `scored_images` list after the loop has seen `rows`: the rows with
      a non-empty embedding, in order, each paired with its score. */
  function ScoreRows(rows: seq<JoinRow>, q: seq<real>, sqrt: real -> real): (r: seq<Scored>)
    ensures |r| == |Filter(rows, HasEmbedding)|
    decreases |rows|
  {
    if rows == [] then []
    else
      var init := rows[..|rows| - 1];
      var last := rows[|rows| - 1];
      var r := ScoreRows(init, q, sqrt);
      FilterSnoc(rows, |rows| - 1, HasEmbedding);
      assert rows[..|rows|] == rows;
      r + (if last.1 == [] then [] else [(last.0, Embedding.CosineSimilarity(q, last.1, sqrt))])
  }

  /** The i-th scored pair is the i-th row with a non-empty embedding, with
      its cosine similarity to the query. */
  lemma {:induction false} ScoreRowsExact(rows: seq<JoinRow>, q: seq<real>, sqrt: real -> real)
    ensures var r := ScoreRows(rows, q, sqrt); var f := Filter(rows, HasEmbedding);
      |r| == |f| && forall i | 0 <= i < |r| :: r[i] == (f[i].0, Embedding.CosineSimilarity(q, f[i].1, sqrt))
    decreases |rows|
  {
    if rows != [] {
      var init := rows[..|rows| - 1];
      var last := rows[|rows| - 1];
      ScoreRowsExact(init, q, sqrt);
      FilterSnoc(rows, |rows| - 1, HasEmbedding);
      assert rows[..|rows|] == rows;
      var r, r0 := ScoreRows(rows, q, sqrt), ScoreRows(init, q, sqrt);
      var f, f0 := Filter(rows, HasEmbedding), Filter(init, HasEmbedding);
      assert r == r0 + (if last.1 == [] then [] else [(last.0, Embedding.CosineSimilarity(q, last.1, sqrt))]);
      assert f == f0 + (if HasEmbedding(last) then [last] else []);
      forall i | 0 <= i < |r| ensures r[i] == (f[i].0, Embedding.CosineSimilarity(q, f[i].1, sqrt)) {
        if i < |r0| {
          assert r[i] == r0[i] && f[i] == f0[i];
        } else {
          assert r[i] == (last.0, Embedding.CosineSimilarity(q, last.1, sqrt)) && f[i] == last;
        }
      }
    }
  }

  /** Every scored pair comes from a row with a non-empty embedding. */
  lemma ScoreRowsFrom(rows: seq<JoinRow>, q: seq<real>, sqrt: real -> real)
    ensures forall p | p in ScoreRows(rows, q, sqrt) ::
      exists row | row in rows :: row.0 == p.0 && row.1 != [] && p.1 == Embedding.CosineSimilarity(q, row.1, sqrt)
  {
    var r := ScoreRows(rows, q, sqrt);
    var f := Filter(rows, HasEmbedding);
    ScoreRowsExact(rows, q, sqrt);
    forall p | p in r
      ensures exists row | row in rows :: row.0 == p.0 && row.1 != [] && p.1 == Embedding.CosineSimilarity(q, row.1, sqrt)
    {
      var i :| 0 <= i < |r| && r[i] == p;
      assert f[i] in f;
    }
  }

  /** The images of scored pairs, scores dropped, order kept. */
  function ImagesOf(ranked: seq<Scored>): (r: seq<ImageRecord>)
    ensures |r| == |ranked| && forall i | 0 <= i < |r| :: r[i] == ranked[i].0
  {
    seq(|ranked|, (i: int) requires 0 <= i < |ranked| => ranked[i].0)
  }

  /** Dropping the scores keeps every image among those it came from. */
  lemma ImagesOfWithin(ranked: seq<Scored>, all: seq<ImageRecord>)
    requires forall p | p in ranked :: p.0 in all
    ensures forall x | x in ImagesOf(ranked) :: x in all
  {
    forall x | x in ImagesOf(ranked) ensures x in all {
      var i :| 0 <= i < |ranked| && ImagesOf(ranked)[i] == x;
      assert ranked[i] in ranked;
    }
  }

  /** The loop of `search_images_by_tags`: it keeps, in order, the images
      of the page that share a tag with `tags`. */
  method FilterByTags(page: seq<ImageRecord>, tags: seq<string>) returns (r: seq<ImageRecord>)
    ensures r == Filter(page, SharesTagWith(tags))
  {
    var p := SharesTagWith(tags);
    r := [];
    var i := 0;
    while i < |page|
      invariant 0 <= i <= |page|
      invariant r == Filter(page[..i], p)
    {
      var image := page[i];
      FilterSnoc(page, i, p);
      assert p(image) == SharesTag(image, tags);
      if SharesTag(image, tags) {
        r := r + [image];
      }
      i := i + 1;
    }
    assert page[..i] == page;
  }

  /** The `for img, audio_embedding in result.all()` loop: it builds the
      scored list `ScoreRows` describes. */
  method ScoreJoinRows(rows: seq<JoinRow>, q: seq<real>, sqrt: real -> real) returns (scored: seq<Scored>)
    ensures scored == ScoreRows(rows, q, sqrt)
  {
    scored := [];
    var i := 0;
    while i < |rows|
      invariant 0 <= i <= |rows|
      invariant scored == ScoreRows(rows[..i], q, sqrt)
    {
      var row := rows[i];
      if row.1 != [] {
        scored := scored + [(row.0, Embedding.CosineSimilarity(q, row.1, sqrt))];
      }
      assert rows[..i + 1][..i] == rows[..i];
      i := i + 1;
    }
    assert rows[..i] == rows;
  }

  /** Sorting the scores keeps the join order among equal scores. */
  lemma SimilarityTiesKeepJoinOrder(scored: seq<Scored>, v: real)
    ensures Filter(SortDesc(scored, Score), KeyEquals(Score, v)) == Filter(scored, KeyEquals(Score, v))
  {
    SortDescStable(scored, Score, v);
  }

  predicate SharesTag(x: ImageRecord, tags: seq<string>) {
    exists t | t in tags :: t in x.tags
  }

  function SharesTagWith(tags: seq<string>): ImageRecord -> bool {
    x => SharesTag(x, tags)
  }

  function AnyImage(x: ImageRecord): bool { true }

  class ImageRepository {
    const store: Store

    constructor (store: Store)
      ensures this.store == store
    {
      this.store := store;
    }

    /** `create_image`: inserts one row with a fresh version-4 UUID as id,
        `now` as timestamp, `[]` for missing tags, and the given flag. */
    method CreateImage(random: nat, now: int, path: string, description: Option<string> := None,
                       tags: Option<seq<string>> := None, embeddings: Option<Json> := None,
                       tagged: bool := false, audioId: Option<string> := None,
                       latitude: Option<real> := None, longitude: Option<real> := None)
      returns (r: Result<ImageRecord, DbError>)
      requires store.Valid()
      modifies store
      ensures store.Valid()
      ensures store.videos == old(store.videos) && store.audios == old(store.audios)
      ensures r.Failure? <==> HasKey(old(store.images), ImageId, Uuid4(random))
      ensures r.Failure? ==> r.error == DuplicateKey && store.images == old(store.images)
      ensures r.Success? ==> store.images == old(store.images) + [r.value]
      ensures r.Success? ==> var x := r.value;
        x.id == Uuid4(random) && IsUuid4(x.id) && x.timestamp == now && x.path == path && x.description == description
        && x.tags == tags.GetOr([]) && x.embeddings == embeddings && x.tagged == tagged
        && x.audioId == audioId && x.latitude == latitude && x.longitude == longitude
    {
      var id := Uuid4(random);
      if HasKey(store.images, ImageId, id) {
        return Failure(DuplicateKey);
      }
      var x := ImageRecord(id, now, tagged, embeddings, description, tags.GetOr([]), path,
                           audioId, latitude, longitude);
      AppendKeepsKeys(store.images, ImageId, x);
      store.images := store.images + [x];
      r := Success(x);
    }

    /** `get_image_by_id`. */
    function GetImageById(imageId: string): (r: Option<ImageRecord>)
      reads store
      ensures r.Some? <==> exists x | x in store.images :: x.id == imageId
      ensures r.Some? ==> r.value in store.images && r.value.id == imageId
    {
      HasKeyMember(store.images, ImageId, imageId);
      Lookup(store.images, ImageId, imageId)
    }

    /** `get_all_images`: newest first, then OFFSET and LIMIT. */
    function GetAllImages(skip: int := 0, limit: int := 100): (r: seq<ImageRecord>)
      reads store
      ensures r == Select(store.images, AnyImage, ImageTime, skip, limit)
      ensures SortedDesc(r, ImageTime)
      ensures multiset(r) <= multiset(store.images)
      ensures limit >= 0 ==> |r| <= limit
      ensures skip <= 0 && (limit < 0 || limit >= |store.images|) ==> multiset(r) == multiset(store.images)
    {
      FilterAll(store.images, AnyImage);
      Select(store.images, AnyImage, ImageTime, skip, limit)
    }

    /** `get_tagged_images`. */
    function GetTaggedImages(skip: int := 0, limit: int := 100): (r: seq<ImageRecord>)
      reads store
      ensures r == Select(store.images, IsTagged, ImageTime, skip, limit)
      ensures forall x | x in r :: x in store.images && x.tagged
      ensures SortedDesc(r, ImageTime)
      ensures limit >= 0 ==> |r| <= limit
      ensures skip <= 0 && limit < 0 ==> forall x | x in store.images && x.tagged :: x in r
    {
      Select(store.images, IsTagged, ImageTime, skip, limit)
    }

    /** `get_untagged_images`. */
    function GetUntaggedImages(skip: int := 0, limit: int := 100): (r: seq<ImageRecord>)
      reads store
      ensures r == Select(store.images, IsUntagged, ImageTime, skip, limit)
      ensures forall x | x in r :: x in store.images && !x.tagged
      ensures SortedDesc(r, ImageTime)
      ensures limit >= 0 ==> |r| <= limit
      ensures skip <= 0 && limit < 0 ==> forall x | x in store.images && !x.tagged :: x in r
    {
      Select(store.images, IsUntagged, ImageTime, skip, limit)
    }

    function CountImages(): (n: nat)
      reads store
      ensures n == |GetAllImages(0, -1)|
    {
      FilterAll(store.images, AnyImage);
      |store.images|
    }

    /** `count_tagged_images`: as many as the unpaged tagged query returns. */
    function CountTaggedImages(): (n: nat)
      reads store
      ensures n == |GetTaggedImages(0, -1)|
    {
      |Filter(store.images, IsTagged)|
    }

    function CountUntaggedImages(): (n: nat)
      reads store
      ensures n == |GetUntaggedImages(0, -1)|
    {
      |Filter(store.images, IsUntagged)|
    }

    /** `search_similar_audio_embeddings`. */
    method SearchSimilarAudioEmbeddings(queryEmbedding: seq<real>, sqrt: real -> real, limit: int := 50)
      returns (r: seq<Scored>)
      ensures queryEmbedding == [] ==> r == []
      ensures queryEmbedding != [] ==>
        r == Take(SortDesc(ScoreRows(JoinRows(store.images, store.audios), queryEmbedding, sqrt), Score), limit)
      ensures SortedDesc(r, Score)
      ensures limit >= 0 ==> |r| <= limit
      ensures forall p | p in r :: (p.0 in store.images
        && exists a | a in store.audios :: p.0.audioId == Some(a.id) && a.embedding.Some? && a.embedding.value != [])
      ensures Embedding.IsSqrt(sqrt) ==> forall p | p in r :: -1.0 <= p.1 <= 1.0
    {
      if queryEmbedding == [] {
        return [];
      }
      var rows := JoinRows(store.images, store.audios);
      var scored := ScoreJoinRows(rows, queryEmbedding, sqrt);
      RankedFacts(store.images, store.audios, queryEmbedding, sqrt, limit);
      r := Take(SortDesc(scored, Score), limit);
    }

    /** `get_images_by_audio`: the images of the best-scoring audio
        matches, best first, or the `limit` newest images when the query
        text yields no embedding or nothing scores. */
    method GetImagesByAudio(audioDescription: string, embed: string -> Option<seq<real>>,
                            sqrt: real -> real, limit: int := 50)
      returns (r: seq<ImageRecord>)
      ensures forall x | x in r :: x in store.images
      ensures limit >= 0 ==> |r| <= limit
      ensures limit != 0 && store.images != [] ==> r != []
      ensures var q := Embedding.GenerateTextEmbedding(audioDescription, embed);
        q.None? || q.value == [] ==> r == GetAllImages(0, limit)
      ensures var q := Embedding.GenerateTextEmbedding(audioDescription, embed);
        q.Some? && q.value != [] ==>
          var ranked := ImagesOf(Take(SortDesc(ScoreRows(JoinRows(store.images, store.audios), q.value, sqrt), Score), limit));
          r == if ranked == [] then GetAllImages(0, limit) else ranked
    {
      var q := Embedding.GenerateTextEmbedding(audioDescription, embed);
      if q.None? || q.value == [] {
        r := GetAllImages(0, limit);
        NewestFacts(limit);
        return;
      }
      var similar := SearchSimilarAudioEmbeddings(q.value, sqrt, limit);
      r := ImagesOf(similar);
      ImagesOfWithin(similar, store.images);
      if r == [] {
        r := GetAllImages(0, limit);
        NewestFacts(limit);
      }
    }

    /** The newest-first fallback lists stored images, and some whenever
        there are any and the limit is not 0. */
    lemma NewestFacts(limit: int)
      ensures limit != 0 && store.images != [] ==> GetAllImages(0, limit) != []
      ensures forall x | x in GetAllImages(0, limit) :: x in store.images
    {
      FilterAll(store.images, AnyImage);
      var t := SortDesc(store.images, ImageTime);
      assert |Page(t, 0, limit)| > 0 || limit == 0 || t == [];
      forall x | x in GetAllImages(0, limit) ensures x in store.images {
        assert x in multiset(GetAllImages(0, limit));
      }
    }

    /** `search_images_by_tags`: the images of the newest-first page that
        share at least one tag with `tags`, in page order. */
    method SearchImagesByTags(tags: seq<string>, skip: int := 0, limit: int := 100)
      returns (r: seq<ImageRecord>)
      ensures r == Filter(GetAllImages(skip, limit), SharesTagWith(tags))
      ensures SortedDesc(r, ImageTime)
      ensures forall x | x in r :: x in store.images && SharesTag(x, tags)
    {
      var page := GetAllImages(skip, limit);
      r := FilterByTags(page, tags);
      TagFilterFacts(page, store.images, tags);
    }

    /** `update_image`: with no argument given nothing is written and the
        current row is returned; an `audio_id` is keyed by a column object,
        which `values(**update_data)` rejects; otherwise the given columns
        are written and the row is read back. */
    method UpdateImage(imageId: string, description: Option<string> := None,
                       tags: Option<seq<string>> := None, embeddings: Option<Json> := None,
                       tagged: Option<bool> := None, audioId: Option<string> := None,
                       latitude: Option<real> := None, longitude: Option<real> := None)
      returns (r: Result<Option<ImageRecord>, DbError>)
      requires store.Valid()
      modifies store
      ensures store.Valid()
      ensures store.videos == old(store.videos) && store.audios == old(store.audios)
      ensures audioId.Some? ==> r == Failure(NonStringKeyword) && store.images == old(store.images)
      ensures audioId.None? ==>
        var c := ImageChanges(description, tags, embeddings, tagged, latitude, longitude);
        store.images == UpdateWhere(old(store.images), imageId, c)
        && r == Success(Lookup(store.images, ImageId, imageId))
      ensures (audioId.None? && description.None? && tags.None? && embeddings.None? && tagged.None?
               && latitude.None? && longitude.None?) ==> store.images == old(store.images)
    {
      var c := ImageChanges(description, tags, embeddings, tagged, latitude, longitude);
      if NoChanges(c) && audioId.None? {
        UpdateWhereNoEffect(store.images, imageId, c);
        return Success(Lookup(store.images, ImageId, imageId));
      }
      if audioId.Some? {
        return Failure(NonStringKeyword);
      }
      UpdateWhereKeepsKeys(store.images, imageId, c);
      store.images := UpdateWhere(store.images, imageId, c);
      r := Success(Lookup(store.images, ImageId, imageId));
    }

    /** `delete_image`: False for an absent id, otherwise the row is removed
        and True is returned. */
    method DeleteImage(imageId: string) returns (deleted: bool)
      requires store.Valid()
      modifies store
      ensures store.Valid()
      ensures store.videos == old(store.videos) && store.audios == old(store.audios)
      ensures deleted <==> HasKey(old(store.images), ImageId, imageId)
      ensures !deleted ==> store.images == old(store.images)
      ensures deleted ==> var i := KeyIndex(old(store.images), ImageId, imageId);
        store.images == old(store.images)[..i] + old(store.images)[i + 1..]
    {
      var existing := Lookup(store.images, ImageId, imageId);
      if existing.None? {
        return false;
      }
      WithoutRemovesOne(store.images, ImageId, imageId);
      WithoutKeepsKeys(store.images, ImageId, imageId);
      store.images := Without(store.images, ImageId, imageId);
      deleted := true;
    }
  }

  /** What ranking the scored join rows guarantees. */
  lemma RankedFacts(images: seq<ImageRecord>, audios: seq<AudioRecord>, q: seq<real>,
                    sqrt: real -> real, limit: int)
    ensures var scored := ScoreRows(JoinRows(images, audios), q, sqrt);
      var r := Take(SortDesc(scored, Score), limit);
      SortedDesc(r, Score)
      && (forall p | p in r :: (p.0 in images
            && exists a | a in audios :: p.0.audioId == Some(a.id) && a.embedding.Some? && a.embedding.value != []))
      && (Embedding.IsSqrt(sqrt) ==> forall p | p in r :: -1.0 <= p.1 <= 1.0)
  {
    var scored := ScoreRows(JoinRows(images, audios), q, sqrt);
    ScoredFacts(images, audios, q, sqrt);
    var sorted := SortDesc(scored, Score);
    SortDescSorted(scored, Score);
    TakeSorted(sorted, limit, Score);
    var r := Take(sorted, limit);
    forall p | p in r ensures p in scored {
      assert p in sorted;
      assert p in multiset(scored);
    }
  }

  /** Every scored join row is a stored image with an embedded audio row,
      and its score is a cosine similarity. */
  lemma ScoredFacts(images: seq<ImageRecord>, audios: seq<AudioRecord>, q: seq<real>, sqrt: real -> real)
    ensures forall p | p in ScoreRows(JoinRows(images, audios), q, sqrt) :: (p.0 in images
      && (exists a | a in audios :: p.0.audioId == Some(a.id) && a.embedding.Some? && a.embedding.value != [])
      && (Embedding.IsSqrt(sqrt) ==> -1.0 <= p.1 <= 1.0))
  {
    var rows := JoinRows(images, audios);
    ScoreRowsFrom(rows, q, sqrt);
    forall p | p in ScoreRows(rows, q, sqrt)
      ensures p.0 in images
      ensures exists a | a in audios :: p.0.audioId == Some(a.id) && a.embedding.Some? && a.embedding.value != []
      ensures Embedding.IsSqrt(sqrt) ==> -1.0 <= p.1 <= 1.0
    {
      var row :| row in rows && row.0 == p.0 && row.1 != [] && p.1 == Embedding.CosineSimilarity(q, row.1, sqrt);
      if Embedding.IsSqrt(sqrt) {
        Embedding.CosineBounded(q, row.1, sqrt);
      }
    }
  }

  /** What keeping the tag-sharing images of a page guarantees. */
  lemma TagFilterFacts(page: seq<ImageRecord>, all: seq<ImageRecord>, tags: seq<string>)
    requires multiset(page) <= multiset(all) && SortedDesc(page, ImageTime)
    ensures var r := Filter(page, SharesTagWith(tags));
      SortedDesc(r, ImageTime) && forall x | x in r :: x in all && SharesTag(x, tags)
  {
    var r := Filter(page, SharesTagWith(tags));
    FilterSorted(page, SharesTagWith(tags), ImageTime);
    forall x | x in r ensures x in all && SharesTag(x, tags) {
      assert x in page;
      assert x in multiset(page);
    }
  }

  /** Every image is either tagged or untagged. */
  lemma CountsPartition(repo: ImageRepository)
    ensures repo.CountTaggedImages() + repo.CountUntaggedImages() == repo.CountImages()
  {
    FilterComplement(repo.store.images, IsTagged, IsUntagged);
  }

  /** A created image can be read back by its id. */
  lemma CreatedImageIsFound(s: seq<ImageRecord>, x: ImageRecord)
    requires !HasKey(s, ImageId, x.id)
    ensures Lookup(s + [x], ImageId, x.id) == Some(x)
  {
    var t := s + [x];
    assert ImageId(t[|s|]) == x.id;
    assert forall j | 0 <= j < |s| :: t[j] == s[j] && ImageId(t[j]) != x.id;
  }
}
