# Media archive backend — a verified Dafny model

The system is the backend of a personal photo and video archive. Clients
upload camera frames with a transcript of what was said, and videos with
their frames and recorded audio. The backend keeps images, videos and
audio transcriptions in three database tables. A background worker has an
AI model tag the untagged images in batches. A chat agent builds a text
context from the collection and answers questions about it. A `find`
endpoint reports the most recent photo or video in which an item was seen.

This project models the core of that backend in Dafny 4.11 and proves
properties of the model:

- the three tables (`MediaStore.Store`) and the image, video and audio
  repositories over them: create, partial update, delete, the
  newest-first paged queries and the counts;
- cosine similarity and the image ranking built on it, with the fallback
  to the newest images;
- one pass of the tagging worker and the batch tagging function it calls;
- the chat agent's context cache, its context text and its history window;
- the request models' field constraints and defaults;
- the video and image routes named below, and `find_item`.

Modules follow the source files: `Records` and `MediaStore` for the
database models, `ApiModels` for the request models, one module per
repository (`ImageRepo`, `VideoRepo`, `AudioRepo`), `Embedding`,
`Tagging`, `Worker`, `Agent`, `Find`, `VideoRouter` and `ImageRouter`.
`Wrappers`, `Text` and `Seqs` hold `Option`/`Result`, the Python string
operations and the list and SQL selection helpers the others share.

Modelling choices:

- The database session is a `Store` object with one `seq` per table. A
  repository holds that store. Its queries are functions that read it;
  its writes are methods that modify it and keep primary keys unique
  (`Store.Valid`).
- `ORDER BY timestamp DESC` is a stable sort, so rows with equal
  timestamps stay in table order. `OFFSET`/`LIMIT` follow SQLite: a
  negative limit means no limit and a negative offset counts as 0.
- Timestamps are integers. Coordinates, frame rates, durations and scores
  are `real`. `math.sqrt` is a parameter `sqrt: real -> real`; the
  results that need it to be the square root assume `Embedding.IsSqrt(sqrt)`.
- The model takes as parameters everything it cannot see:
  - the AI services (embedding, generation, transcription);
  - reading a file;
  - base64 decoding and JSON parsing;
  - the formatting of datetimes and floats in f-strings (`Agent.Show`);
  - the random bits behind each `uuid.uuid4()` (turned into text by
    `Records.Uuid4`);
  - the clock.
- Exceptions become error values: `DbError` for the database, `HttpError`
  for an `HTTPException`, and `TaggingResult.Raised` for a `ValueError`
  that escapes. A duplicate primary key (an `IntegrityError`) is an error
  outcome, not a precondition.
- `database/models.py` declares only `ImageModel`. The audio and video
  rows (`Records.AudioRecord`, `Records.VideoRecord`) carry the columns
  the repositories read and write. `ImageRecord` has an `audioId`
  column, because the repositories and routes store one, although
  `ImageModel` does not declare it.
- Where the code and its documentation disagree, the model follows the
  code:
  - `get_images_by_audio` applies no similarity threshold.
  - In `prepare_context` the comments say "every 10th" item, but the
    code gives a block to every second one.
  - `create_video` defaults `fps` to 30.0, the value in its signature,
    not the 60.0 its documentation states.

## Model

| member | source | states |
|---|---|---|
| Records.TagCount | backend/database/models.py:71-78 | the tag count is the number of tags, and it is 0 exactly when there are none |
| Records.HasLocation | backend/database/models.py:63-69 | `has_location`: a row has a location exactly when both coordinates are set; a zero coordinate counts, unlike in the agent overview (`Agent.ZeroCoordinateNotLocated`) |
| Records.Uuid4 | backend/database/models.py:36 | the id of a new row is a 36-character version-4 UUID: hex digits, hyphens at positions 8, 13, 18 and 23, version digit 4, variant digit 8 to b |
| MediaStore.Store.constructor | backend/database/models.py:33-36 | a new database has three empty tables, whose primary keys are trivially unique |
| MediaStore.KeyIndex | backend/app/repository/image_repository.py:142-156 | the position of the first row with the id, or -1 exactly when no row has it |
| MediaStore.Lookup | backend/app/repository/image_repository.py:142-156 | a lookup by id finds a row exactly when one has that id, and the row found is in the table with that id |
| MediaStore.Without | backend/app/repository/video_repository.py:216-223 | a delete by id leaves no row with that id, keeps every other row and adds none |
| MediaStore.WithoutRemovesOne | backend/app/repository/image_repository.py:355-361 | with unique keys, deleting an existing id removes exactly the one row that holds it and keeps the order of the others |
| MediaStore.KeptAround | backend/app/repository/image_repository.py:355-361 | with unique keys, every row other than the one holding the id survives the deletion |
| MediaStore.WithoutAt | backend/app/repository/image_repository.py:355-361 | deleting the id of one row leaves the rows before and after it, in order, when those all survive |
| MediaStore.WithoutAbsent | backend/app/repository/image_repository.py:355-357 | deleting an absent id changes nothing |
| MediaStore.AppendKeepsKeys | backend/database/models.py:36 | inserting a row with a fresh id keeps primary keys unique |
| MediaStore.ReplaceKeepsKeys | backend/database/models.py:36 | rewriting a row without changing its id keeps primary keys unique |
| MediaStore.WithoutKeepsKeys | backend/database/models.py:36 | deleting rows keeps primary keys unique |
| ApiModels.CoordinateErrors | backend/app/models/models.py:15-16 | latitude is rejected exactly when it is set and outside [-90, 90], and longitude exactly when it is set and outside [-180, 180] |
| ApiModels.NewImageBase | backend/app/models/models.py:7-17 | an `ImageBase` is built exactly when both coordinates are in range; then it holds the given fields, otherwise the errors name the bad coordinates |
| ApiModels.ImageBaseDefaults | backend/app/models/models.py:8-14 | an empty `ImageBase` has no description, no tags, no embeddings, no audio id and `tagged` false |
| ApiModels.NewImageUpdate | backend/app/models/models.py:23-33 | an `ImageUpdate` is accepted exactly when its coordinates are in range, and then holds the given optional fields |
| ApiModels.ImageChangesOf | backend/app/models/models.py:23-32 | an update's column changes are its own fields, field for field |
| ApiModels.EmptyImageUpdateChangesNothing | backend/app/models/models.py:23-32 | an update built from an empty body is valid and changes no column of any image |
| ApiModels.VideoBaseErrors | backend/app/models/models.py:47-53 | the video fields are valid exactly when fps > 0, a given duration is ≥ 0 and both coordinates are in range; each failing field is named |
| ApiModels.NewVideoBase | backend/app/models/models.py:43-54 | a `VideoBase` is built exactly when its constraints hold, and then holds the given fields |
| ApiModels.VideoBaseDefaults | backend/app/models/models.py:44-53 | an empty `VideoBase` has fps 60.0, no tags, `tagged` false and nothing else set |
| ApiModels.NewVideoCreate | backend/app/models/models.py:56-61 | a `VideoCreate` is built exactly when the base constraints hold and `audio` is present; the frames keep the value sent, and when none is sent they become the class attribute, a tuple |
| ApiModels.FramesNotRequired | backend/app/models/models.py:57-59 | because a trailing comma turns the `Field` into a tuple, an empty frame list and a missing one are both accepted |
| ApiModels.AudioRequired | backend/app/models/models.py:60 | a body without `audio` is rejected, and only for that field |
| ApiModels.NewVideoUpdate | backend/app/models/models.py:63-71 | a `VideoUpdate` is accepted exactly when a given fps is > 0 and a given duration is ≥ 0; it has no coordinate fields |
| Embedding.SumSquares | backend/app/utils/embedding.py:49-50 | the squared magnitude is never negative |
| Embedding.CosineSimilarity | backend/app/utils/embedding.py:39-40 | the similarity is 0.0 when either vector is empty or their lengths differ |
| Embedding.GenerateTextEmbedding | backend/app/utils/embedding.py:14-23 | blank text gives None without the service; other text gives the service's answer for the stripped text |
| Embedding.BlankTextIgnoresService | backend/app/utils/embedding.py:14-15 | for blank text any two embedding services give the same answer, None |
| Embedding.CosineZeroMagnitude | backend/app/utils/embedding.py:53-54 | a vector of zero magnitude has similarity 0.0 with anything |
| Embedding.CosineZeroRoot | backend/app/utils/embedding.py:53-54 | a zero magnitude, however the root is computed, gives 0.0 |
| Embedding.CosineFormula | backend/app/utils/embedding.py:46-56 | otherwise the similarity is the dot product divided by the product of the magnitudes, both positive |
| Embedding.CosineNonZero | backend/app/utils/embedding.py:46-56 | with non-zero computed magnitudes the similarity is the normalised dot product, for any root function |
| Embedding.CosineScaled | backend/app/utils/embedding.py:56 | the similarity times the two magnitudes gives back the dot product |
| Embedding.CosineSymmetric | backend/app/utils/embedding.py:39-56 | the similarity does not depend on the order of its arguments |
| Embedding.CauchySchwarz | backend/app/utils/embedding.py:46-50 | the squared dot product is at most the product of the squared magnitudes |
| Embedding.CosineBounded | backend/app/utils/embedding.py:37 | the similarity lies in [-1, 1], as documented |
| Embedding.CosineBoundedAt | backend/app/utils/embedding.py:46-56 | the bound holds for any root function that gives the non-negative root of both magnitudes |
| Embedding.CosineSelf | backend/app/utils/embedding.py:46-56 | a non-zero vector has similarity 1 with itself |
| Embedding.CosineOpposite | backend/app/utils/embedding.py:46-56 | a non-zero vector has similarity -1 with its negation |
| Embedding.DotSymmetric | backend/app/utils/embedding.py:46 | the dot product is symmetric |
| Embedding.DotSelf | backend/app/utils/embedding.py:46-49 | a vector's dot product with itself is its squared magnitude |
| Embedding.DotNeg | backend/app/utils/embedding.py:46 | the dot product with the negation is the negated squared magnitude |
| AudioRepo.AudioRepository.constructor | backend/app/repository/audio_repository.py:34-40 | the repository works on the session it is given |
| AudioRepo.AudioRepository.CreateAudio | backend/app/repository/audio_repository.py:42-67 | a fresh UUID gives exactly one new row with that id, the clock's time, the given transcription (possibly None) and no embedding; a taken id gives `DuplicateKey` and no change; other tables are untouched |
| AudioRepo.AudioRepository.GetAudioById | backend/app/repository/audio_repository.py:69-82 | a row is returned exactly when one has the id, otherwise None |
| AudioRepo.AudioRepository.GetAllAudio | backend/app/repository/audio_repository.py:84-100 | the result is exactly the `Select` page of the whole table by timestamp: its length is fixed by the offset and limit and row i is the row at that position of the newest-first order; the rows are table rows, and unpaged every row is returned |
| AudioRepo.AudioRepository.SearchAudioByTranscription | backend/app/repository/audio_repository.py:102-122 | the result is exactly the `Select` page of the rows whose transcription contains the term up to ASCII case, newest first; unpaged, every such row is returned |
| AudioRepo.AudioRepository.GetRecentAudio | backend/app/repository/audio_repository.py:179-193 | the result is exactly the first `min(limit, n)` rows of the newest-first order |
| AudioRepo.AudioRepository.GetAudioWithTranscription | backend/app/repository/audio_repository.py:195-215 | the result is exactly the `Select` page of the rows with a non-null, non-empty transcription, newest first; unpaged, every such row is returned |
| AudioRepo.AudioRepository.GetAudioWithoutTranscription | backend/app/repository/audio_repository.py:217-237 | the result is exactly the `Select` page of the rows whose transcription is null or empty, newest first; unpaged, every such row is returned |
| AudioRepo.AudioRepository.CountAudio | backend/app/repository/audio_repository.py:170-177 | the count is the size of the unpaged listing |
| AudioRepo.AudioRepository.UpdateAudio | backend/app/repository/audio_repository.py:124-152 | with no transcription it writes nothing and returns the current row (or None); a transcription is keyed by a column object, which `values(**update_data)` rejects with a TypeError |
| AudioRepo.AudioRepository.DeleteAudio | backend/app/repository/audio_repository.py:154-168 | it returns True exactly when a row had that id; every such row is removed and nothing else changes |
| AudioRepo.TranscriptionPartition | backend/app/repository/audio_repository.py:195-237 | unpaged, the with-transcription and without-transcription queries return only table rows, every table row is in one of them, and their lengths add up to the row count |
| AudioRepo.TranscriptionExclusive | backend/app/repository/audio_repository.py:207-237 | unpaged, each table row is in exactly one of the two queries |
| AudioRepo.SearchIgnoresCase | backend/app/repository/audio_repository.py:115-122 | terms that differ only in ASCII case match the same rows |
| ImageRepo.ApplyChanges | backend/app/repository/image_repository.py:325-338 | the row after the update has each given column set to its new value and every other column kept, id, timestamp, path and audio id included |
| ImageRepo.ApplyNoChanges | backend/app/repository/image_repository.py:340-341 | an update without changes leaves the row as it is |
| ImageRepo.ApplyChangesIdempotent | backend/app/repository/image_repository.py:325-346 | applying the same update twice is applying it once |
| ImageRepo.UpdateWhere | backend/app/repository/image_repository.py:343-345 | `UPDATE ... WHERE id` keeps the table's length and ids, rewrites the rows with that id and leaves the others |
| ImageRepo.UpdateWhereKeepsKeys | backend/app/repository/image_repository.py:343-345 | the update keeps primary keys unique |
| ImageRepo.UpdateWhereNoEffect | backend/app/repository/image_repository.py:340-345 | an update of an absent id, or one with no changes, leaves the table as it is |
| ImageRepo.UpdateThenGet | backend/app/repository/image_repository.py:343-348 | after the update, reading the id back gives the old row with the changes applied |
| ImageRepo.LinkedEmbeddings | backend/app/repository/image_repository.py:222-226 | each embedding joined to an image belongs to an audio row whose id is the image's audio id |
| ImageRepo.JoinRows | backend/app/repository/image_repository.py:222-226 | the join holds exactly the linked pairs: every row pairs a table image with the non-null embedding of an audio row it links to, and every such image and audio pair gives a row |
| ImageRepo.WithImageComplete | backend/app/repository/image_repository.py:222-226 | every embedding of an audio row linked to the image gives a join row of that image |
| ImageRepo.NoEmbeddingsNoRows | backend/app/repository/image_repository.py:222-226 | when no audio row has an embedding the join is empty |
| ImageRepo.NoLinkedEmbeddings | backend/app/repository/image_repository.py:222-226 | when no audio row has an embedding, no image is joined to one |
| ImageRepo.ScoreRows | backend/app/repository/image_repository.py:229-235 | the loop keeps one scored pair per join row with a non-empty embedding |
| ImageRepo.ScoreRowsExact | backend/app/repository/image_repository.py:229-235 | the i-th scored pair is the i-th join row with a non-empty embedding, with the cosine similarity of that embedding to the query as its score; rows with an empty embedding are skipped |
| ImageRepo.ScoreRowsFrom | backend/app/repository/image_repository.py:229-235 | every scored pair comes from a join row with a non-empty embedding and is scored by its cosine similarity |
| ImageRepo.SimilarityTiesKeepJoinOrder | backend/app/repository/image_repository.py:238 | the descending sort is stable: rows with equal score keep the join order |
| ImageRepo.RankedFacts | backend/app/repository/image_repository.py:229-239 | the ranked list is non-increasing in score, holds only images linked to a non-empty audio embedding, and its scores lie in [-1, 1] |
| ImageRepo.ScoredFacts | backend/app/repository/image_repository.py:222-235 | every scored pair is a table image linked to an audio row with a non-empty embedding, and with a true square root its score lies in [-1, 1] |
| ImageRepo.TagFilterFacts | backend/app/repository/image_repository.py:301-306 | keeping the tag-sharing images of a page keeps newest-first order, and every image kept is in the table and shares a tag |
| ImageRepo.CountsPartition | backend/app/repository/image_repository.py:363-380 | the tagged count plus the untagged count is the image count |
| ImageRepo.CreatedImageIsFound | backend/app/repository/image_repository.py:137-156 | a created image can be read back by its id |
| ImageRepo.ImageRepository.constructor | backend/app/repository/image_repository.py:37-43 | the repository works on the session it is given |
| ImageRepo.ImageRepository.CreateImage | backend/app/repository/image_repository.py:91-140 | a fresh UUID gives exactly one new row with that id, the clock's time, the given fields, `[]` for missing tags and the given `tagged` flag; a taken id gives `DuplicateKey` and no change |
| ImageRepo.ImageRepository.GetImageById | backend/app/repository/image_repository.py:142-156 | a row is returned exactly when one has the id, otherwise None |
| ImageRepo.ImageRepository.GetAllImages | backend/app/repository/image_repository.py:166-175 | the result is exactly the `Select` page of the whole table, newest first; unpaged, the whole table |
| ImageRepo.ImageRepository.GetTaggedImages | backend/app/repository/image_repository.py:177-189 | the result is exactly the `Select` page of the tagged rows, newest first; unpaged, all of them |
| ImageRepo.ImageRepository.GetUntaggedImages | backend/app/repository/image_repository.py:191-203 | the result is exactly the `Select` page of the untagged rows, newest first; unpaged, all of them |
| ImageRepo.ImageRepository.CountImages | backend/app/repository/image_repository.py:363-366 | the count is the size of the unpaged listing |
| ImageRepo.ImageRepository.CountTaggedImages | backend/app/repository/image_repository.py:368-373 | the count is the size of the unpaged tagged listing |
| ImageRepo.ImageRepository.CountUntaggedImages | backend/app/repository/image_repository.py:375-380 | the count is the size of the unpaged untagged listing |
| ImageRepo.ImageRepository.SearchSimilarAudioEmbeddings | backend/app/repository/image_repository.py:205-239 | an empty query gives []; otherwise the first `limit` of the stably sorted scored join rows: non-increasing scores, only images linked to a non-empty audio embedding, scores in [-1, 1] |
| ImageRepo.ImageRepository.GetImagesByAudio | backend/app/repository/image_repository.py:241-279 | a failed or empty embedding gives the newest images; otherwise the images of the ranked audio matches in rank order, or the newest images when there are none; always table images, at most `limit`, and never empty for a non-zero limit and a non-empty table |
| ImageRepo.ScoreJoinRows | backend/app/repository/image_repository.py:229-235 | the loop builds exactly the scored list of the join rows that have an embedding, in join order |
| ImageRepo.ImagesOfWithin | backend/app/repository/image_repository.py:270 | dropping the scores keeps every image among those the pairs came from |
| ImageRepo.FilterByTags | backend/app/repository/image_repository.py:303-307 | the loop keeps exactly the page's images that share a tag, in page order |
| ImageRepo.ImageRepository.NewestFacts | backend/app/repository/image_repository.py:273-277 | the newest-images fallback lists table images only, and is non-empty when the table is non-empty and the limit is non-zero |
| ImageRepo.ImageRepository.SearchImagesByTags | backend/app/repository/image_repository.py:288-308 | the result is the newest-first page, filtered in order to the images sharing a tag by exact equality |
| ImageRepo.ImageRepository.UpdateImage | backend/app/repository/image_repository.py:310-348 | only the given columns change, on the row with that id, which is then read back; with no argument nothing is written; an `audio_id` is keyed by a column object and rejected with a TypeError before any write |
| ImageRepo.ImageRepository.DeleteImage | backend/app/repository/image_repository.py:350-361 | False and no change for an absent id; otherwise True, and exactly that row is removed |
| VideoRepo.StoredDuration | backend/app/repository/video_repository.py:76-78 | a given duration is kept; without one, a non-empty frame list at a positive rate gives the duration with duration × fps = number of frames; otherwise none |
| VideoRepo.ComputedDurationPositive | backend/app/repository/video_repository.py:77-78 | a computed duration is positive |
| VideoRepo.FrameCount | backend/app/repository/video_repository.py:316-318 | the frame count is the list's length, or 0 without a list |
| VideoRepo.VideoRepository.constructor | backend/app/repository/video_repository.py:35-41 | the repository works on the session it is given |
| VideoRepo.VideoRepository.CreateVideo | backend/app/repository/video_repository.py:43-97 | with the parameters `create_video` declares: a fresh UUID gives one new row with the frames, the rate, the stored duration, `[]` for missing tags, the `tagged` flag, no description and no embeddings; a taken id gives `DuplicateKey` and no change |
| VideoRepo.VideoRepository.CreateDescribedVideo | backend/app/repository/video_repository.py:43-97 | the row writer `create_video` would be with the `description` argument the route passes: the same row, outcome and error, with the given description stored |
| VideoRepo.VideoRepository.GetVideoById | backend/app/repository/video_repository.py:99-112 | a row is returned exactly when one has the id |
| VideoRepo.VideoRepository.GetAllVideos | backend/app/repository/video_repository.py:114-122 | the result is exactly the `Select` page of the whole table, newest first; unpaged, all rows |
| VideoRepo.VideoRepository.GetTaggedVideos | backend/app/repository/video_repository.py:124-135 | the result is exactly the `Select` page of the tagged rows, newest first; unpaged, all of them |
| VideoRepo.VideoRepository.GetUntaggedVideos | backend/app/repository/video_repository.py:137-148 | the result is exactly the `Select` page of the untagged rows, newest first; unpaged, all of them |
| VideoRepo.VideoRepository.CountVideos | backend/app/repository/video_repository.py:225-228 | the count is the size of the unpaged listing |
| VideoRepo.VideoRepository.CountTaggedVideos | backend/app/repository/video_repository.py:230-235 | the count is the size of the unpaged tagged listing |
| VideoRepo.VideoRepository.CountUntaggedVideos | backend/app/repository/video_repository.py:237-242 | the count is the size of the unpaged untagged listing |
| VideoRepo.VideoRepository.GetVideosByDurationRange | backend/app/repository/video_repository.py:277-295 | the result is exactly the `Select` page of the rows with min ≤ duration ≤ max for the bounds given (a bound excludes a NULL duration), newest first, paged after filtering; unpaged, every such row |
| VideoRepo.VideoRepository.SearchVideosByTags | backend/app/repository/video_repository.py:150-168 | the result is the newest-first page, filtered in order to the videos sharing a tag |
| VideoRepo.FilterByTags | backend/app/repository/video_repository.py:163-167 | the loop keeps exactly the page's videos that share a tag, in page order |
| VideoRepo.VideoRepository.GetVideosByFrameCountRange | backend/app/repository/video_repository.py:297-324 | the result is the newest-first page, filtered in order to the rows whose frame count meets each given bound inclusively |
| VideoRepo.FilterByFrames | backend/app/repository/video_repository.py:313-323 | the loop keeps exactly the page's videos whose frame count is within the bounds, in page order |
| VideoRepo.VideoRepository.UpdateVideo | backend/app/repository/video_repository.py:170-214 | with no argument it writes nothing and returns the current row; any argument is keyed by a column object and rejected with a TypeError |
| VideoRepo.VideoRepository.DeleteVideo | backend/app/repository/video_repository.py:216-223 | True exactly when a row had the id; that row is removed and the others keep their order |
| VideoRepo.PageFilterFacts | backend/app/repository/video_repository.py:161-166 | filtering a page keeps newest-first order and the limit, and keeps only table rows that pass |
| VideoRepo.CountsPartition | backend/app/repository/video_repository.py:225-242 | the tagged count plus the untagged count is the video count |
| VideoRepo.UnboundedDurationIsAll | backend/app/repository/video_repository.py:285-292 | without bounds the duration query is the plain newest-first listing, NULL durations included |
| VideoRepo.PagingDropsLaterMatch | backend/app/repository/video_repository.py:305-322 | a filter applied after paging misses a match that sorts after the page |
| VideoRepo.FrameFilterAfterPaging | backend/app/repository/video_repository.py:305-322 | a table of two videos where the newer one has no frames: a frame query with limit 1 returns nothing, although the older video matches |
| Seqs.Page | backend/app/repository/image_repository.py:166-175 | `OFFSET skip LIMIT limit`: the contiguous run of the rows that starts at the clamped offset and has `PageLength` rows, at most `limit` |
| Seqs.Select | backend/app/repository/image_repository.py:177-189 | `WHERE p ORDER BY key DESC OFFSET LIMIT`: `PageLength` rows, row i being the row at the clamped offset plus i in the sorted passing rows; so passing table rows, sorted, at most `limit`, and every passing row when unpaged |
| Seqs.SelectPage | backend/app/repository/image_repository.py:166-189 | the page of the sorted passing rows has `PageLength` rows, row i being the one at the clamped offset plus i |
| Seqs.Filter | backend/app/repository/image_repository.py:183 | `WHERE p`: only passing rows, every passing row, and no row more often than in the table |
| Seqs.SortDesc | backend/app/repository/image_repository.py:170 | `ORDER BY key DESC`: the same rows, as a permutation of the table (sortedness and stability are `Seqs.SortDescSorted` and `Seqs.SortDescStable`) |
| Seqs.SelectFirst | backend/app/routers/find.py:26-36 | `ORDER BY key DESC LIMIT 1` finds a row exactly when one passes, and no passing row has a greater key |
| Seqs.Take | backend/app/repository/image_repository.py:239 | Python's `s[:n]`: a prefix of length `min(n, len)`, and for a negative `n` one that drops `-n` rows from the end |
| Seqs.SortDescStable | backend/app/repository/image_repository.py:238 | `list.sort(reverse=True)` keeps the original order among equal keys |
| Tagging.ImagesPath | backend/app/utils/tagging.py:112 | `os.path.join("images", p)` prefixes the directory, and an absolute path replaces it |
| Tagging.SplitOnce | backend/app/utils/tagging.py:121 | `split(",", 1)` unpacks into the text before the first comma and the rest, and fails exactly when there is no comma |
| Tagging.BeforeFirst | backend/app/utils/tagging.py:122 | `split(";", 1)[0]` is the text before the first `;`, or the whole text |
| Tagging.ParseContent | backend/app/utils/tagging.py:119-126 | content not starting with `data:` is used whole as JPEG; a `data:` string fails exactly when it has no comma |
| Tagging.ParseDataUrl | backend/app/utils/tagging.py:119-122 | for a data URL the data is the text after the first comma, and the mime type is read from the header between `data:` and the first `;` |
| Tagging.DataUrlRoundTrip | backend/app/utils/tagging.py:119-122 | `data:<mime>;<params>,<data>` gives back its mime type and its data |
| Tagging.LoadImage | backend/app/utils/tagging.py:110-132 | a loaded path becomes an image part; an unreadable file drops the image |
| Tagging.LoadImageSteps | backend/app/utils/tagging.py:110-134 | a path loads exactly when the file reads, its stripped content parses and the data decodes; the part then holds the decoded bytes and the parsed mime type |
| Tagging.LoadsDataUrl | backend/app/utils/tagging.py:115-131 | a stored data URL loads as its own mime type and decoded data |
| Tagging.LoadsRawContent | backend/app/utils/tagging.py:123-131 | raw base64 content is sent whole as `image/jpeg` |
| Tagging.KeptIsFilter | backend/app/utils/tagging.py:109-134 | `valid_images` is the in-order sublist of the paths that load |
| Tagging.Kept | backend/app/utils/tagging.py:109-134 | `valid_images` holds only paths that load, and every requested path that loads |
| Tagging.LoadedPartsMatch | backend/app/utils/tagging.py:109-134 | image part k is what the k-th valid path loaded to |
| Tagging.LoadedParts | backend/app/utils/tagging.py:130-131 | the image parts of the paths that load, in order; `Tagging.LoadedPartsMatch` pairs them with `Tagging.Kept` |
| Tagging.PrepareParts | backend/app/utils/tagging.py:80-134 | the loop yields the prompt part followed by one part per loaded path, and the valid paths are those that loaded, in order |
| Tagging.CleanResponse | backend/app/utils/tagging.py:151-153 | the cleaned response has no code fence and no surrounding whitespace |
| Tagging.StripNoFence | backend/app/utils/tagging.py:152-153 | stripping cannot bring back a fence |
| Tagging.GetImageTagsBatchAsParts | backend/app/utils/tagging.py:27-167 | a missing key raises before any read; no valid image gives "No valid images provided" without calling the model; otherwise the request is the prompt and the loaded parts, and the outcome is the model's error, "Empty response from API", a JSON error with the raw text, or the parsed results with `image_paths` equal to the valid paths |
| Tagging.ReportedPathsAreLoaded | backend/app/utils/tagging.py:109-157 | a requested path is reported back exactly when its image loaded |
| Worker.Paths | backend/app/utils/background_worker.py:24 | the paths passed to the tagger are the batch images' paths, in order |
| Worker.Get | backend/app/utils/background_worker.py:38-39 | `dict.get` gives the stored value, or the default when the key is absent |
| Worker.Strings | backend/app/utils/background_worker.py:38-46 | the string items of a JSON tag list, and all of them: a string is kept exactly when it is an item |
| Worker.ResultChanges | backend/app/utils/background_worker.py:38-46 | a result is written as its tags (default `[]`), its description (default `""`) and `tagged = True`, and nothing else |
| Worker.Written | backend/app/utils/background_worker.py:33-47 | the loop writes results while both lists last, and stops early at the first result that is not a dict |
| Worker.Commit | backend/app/utils/background_worker.py:33-47 | committing keeps the table's length and ids |
| Worker.Tick | backend/app/utils/background_worker.py:12-56 | one pass fetches at most 10 untagged images, newest first; with none the tagger is not called and nothing changes; a tagging error or an exception changes nothing; otherwise results are committed by position, and a result that is not a list writes nothing |
| Worker.CommitResults | backend/app/utils/background_worker.py:33-49 | the loop writes exactly what `Commit` computes and stops at the first result without `get` |
| Worker.CommitKeepsOthers | backend/app/utils/background_worker.py:33-35 | rows not given a result are left as they were |
| Worker.CommitTags | backend/app/utils/background_worker.py:42-47 | every row given a result ends up tagged |
| Worker.CommitKeepsTagged | backend/app/utils/background_worker.py:42-47 | a write never clears the `tagged` flag |
| Worker.BatchTailUntouched | backend/app/utils/background_worker.py:33-35 | a batch image past the last result is not written and stays untagged for a later pass |
| Worker.PositionPairingMisassigns | backend/app/utils/background_worker.py:33-35 | when the first image fails to load, the one answer (for the second image) is written to the first image, and the second stays untagged |
| Worker.Described | backend/app/utils/background_worker.py:24-27 | the images the answers describe are the batch images whose file loaded |
| Worker.DescribedPaths | backend/app/utils/tagging.py:132-157 | the described images' paths are the paths the tagger reports |
| Worker.CommitByPath | backend/app/utils/background_worker.py:33-47 | pairing each answer with the image of its reported path keeps the table's length |
| Worker.CommitByPathPairsCorrectly | backend/app/utils/tagging.py:157 | with that pairing, the k-th answer goes to the image whose path is the k-th reported path |
| Agent.TranscriptionOf | backend/app/agent/agent.py:93-97 | the transcription found belongs to an audio row with that id, and there is none when no row has the id |
| Agent.ImageBlockStatus | backend/app/agent/agent.py:128-161 | an image block starts with `IMAGE #i:`; its STATUS is "Fully Analyzed" exactly when the image is tagged, and the placeholder shows exactly when the description is missing or empty |
| Agent.ImageBlock | backend/app/agent/agent.py:128-161 | the block of an image: header, timestamp, description, tag, GPS and audio lines and the STATUS line, whose properties `Agent.ImageBlockStatus` states |
| Agent.VideoBlock | backend/app/agent/agent.py:166-204 | the block a video would get: header, timestamp, FPS and duration when non-zero, tag, GPS and audio lines and the STATUS line |
| Agent.EvenBlocks | backend/app/agent/agent.py:125-127 | items at the even 1-based positions up to n give `n / 2` blocks |
| Agent.DetailsEveryOther | backend/app/agent/agent.py:125-164 | the detail lines are the blocks of the items at positions 2, 4, 6, …, each followed by an empty line |
| Agent.DetailsEveryOtherStep | backend/app/agent/agent.py:125-164 | when the first n - 1 positions give the every-second-item blocks, so do the first n |
| Agent.ImageDetailsStep | backend/app/agent/agent.py:125-164 | one more even position adds its image block and an empty line |
| Agent.DetailsOddStep | backend/app/agent/agent.py:125-127 | an odd position adds no detail lines |
| Agent.StatsFacts | backend/app/agent/agent.py:84-118 | analysed plus pending is the total for images and for videos; located and voiced items are among those fetched; located images are among those `has_location` accepts |
| Agent.StatsOf | backend/app/agent/agent.py:84-118 | the eight overview counts, each the number of fetched items passing its test; `Agent.StatsFacts` states how they relate |
| Agent.LocatedImpliesHasLocation | backend/app/agent/agent.py:86 | every image the overview counts as located has a location in the sense of `has_location` |
| Agent.LocatedSubset | backend/app/agent/agent.py:86 | the overview's located images are no more than those `has_location` accepts |
| Agent.ZeroCoordinateNotLocated | backend/app/agent/agent.py:86-146 | a zero latitude is a location for `has_location` but is not counted or shown by the agent |
| Agent.CollectionBounds | backend/app/agent/agent.py:64-65 | at most 300 images and 200 videos are read, newest first, and all the images when there are no more than 300 |
| Agent.Recent | backend/app/agent/agent.py:229 | the window is the last `min(10, n)` exchanges |
| Agent.HistoryLines | backend/app/agent/agent.py:229-231 | each exchange gives its "User:" line and then its "Assistant:" line, in order |
| Agent.Prompt | backend/app/agent/agent.py:225-236 | the prompt joins with newlines the context, the history header, the lines of the last ten exchanges and the user line; `Agent.Recent` and `Agent.HistoryLines` state the window and its lines |
| Agent.RecentSlides | backend/app/agent/agent.py:229-253 | appending an exchange extends the window, and once it holds ten the oldest drops out |
| Agent.ChatAgent.constructor | backend/app/agent/agent.py:45-46 | a new agent has no cached context and no history |
| Agent.ChatAgent.ClearContextCache | backend/app/agent/agent.py:260-262 | the cache is cleared and the history kept |
| Agent.ChatAgent.PrepareContext | backend/app/agent/agent.py:48-213 | a non-empty cache is returned unchanged without reading the store; otherwise the context is built from the newest 300 images and 200 videos and cached; the build fails from the second video on, leaving the cache as it was |
| Agent.ChatAgent.GenerateResponse | backend/app/agent/agent.py:215-258 | the prompt is the context, the last ten exchanges and the message; a reply is stripped and appended to the history; a failure returns the apology with the error and leaves the history as it was |
| Agent.PrepareFrom | backend/app/agent/agent.py:48-65 | a non-empty cache is returned as it is and kept; otherwise the context is built from the newest 300 images and 200 videos, and the cache becomes the result when the build succeeds and stays as it was when it fails |
| Agent.BuildContext | backend/app/agent/agent.py:67-213 | building the context gives the preamble, the overview, the image and video details and the closing lines, joined by newlines, or the unbound-list failure |
| Agent.ContextLines | backend/app/agent/agent.py:67-213 | the context lines: preamble, overview, a block for every second image and every second video, closing; `Agent.DetailsEveryOther` states the blocks |
| Agent.ContextFor | backend/app/agent/agent.py:166-213 | building fails with the unbound `video_info` exactly when two or more videos are fetched, and otherwise joins the context lines |
| Agent.Prepared | backend/app/agent/agent.py:48-65 | a non-empty cache as it is, otherwise the context built from the newest 300 images and 200 videos; `Agent.PrepareFrom` and `Agent.ChatAgent.PrepareContext` are proved against it |
| Agent.Overview | backend/app/agent/agent.py:84-122 | the overview lines are those of the eight counts |
| Agent.CollectVoicedImages | backend/app/agent/agent.py:91-98 | the images with audio are, in order, those whose audio id names a row with a non-empty transcription |
| Agent.CollectVoicedVideos | backend/app/agent/agent.py:100-107 | the videos with audio are chosen the same way |
| Agent.RenderAudio | backend/app/agent/agent.py:149-156 | the AUDIO line is present only for a transcription that is not blank, and shows it stripped |
| Agent.RenderImage | backend/app/agent/agent.py:128-161 | the loop body builds exactly the image's block |
| Agent.RenderImageDetails | backend/app/agent/agent.py:124-164 | the image loop writes a block for every second image |
| Agent.RenderImagePosition | backend/app/agent/agent.py:125-164 | one pass of the image loop adds the block of the image at an even position and nothing at an odd one |
| Agent.RenderVideoDetails | backend/app/agent/agent.py:166-204 | the video loop fails exactly when there are two or more videos (the list it appends to is never bound), and otherwise writes nothing |
| Find.LatestImage | backend/app/routers/find.py:26-36 | an image is found exactly when one mentions the query, and it is a newest such image |
| Find.LatestVideo | backend/app/routers/find.py:39-49 | a video is found exactly when one mentions the query, and it is a newest such video |
| Find.MaxByTime | backend/app/routers/find.py:65 | `max` returns a candidate with the latest timestamp, the first one among equals |
| Find.MaxOfTwo | backend/app/routers/find.py:59-65 | the video is chosen only when it is strictly newer than the image |
| Find.CandidateChoice | backend/app/routers/find.py:59-65 | with at least one candidate, the image wins unless there is no image or the video is strictly newer |
| Find.Pick | backend/app/routers/find.py:56-65 | nothing is picked exactly when neither query found a row; the image is picked unless the video is strictly newer, and the video only when it is |
| Find.MostRecent | backend/app/routers/find.py:26-65 | nothing is found exactly when no image or video mentions the query; otherwise an image is chosen only if it is at least as new as every matching row, and a video only if it is strictly newer than every matching image |
| Find.FindItem | backend/app/routers/find.py:67-75 | 404 "I could not find your {query}." exactly when nothing matches; otherwise the sentence for the most recent match |
| Find.Sentence | backend/app/routers/find.py:67-73 | the answer starts with "I last saw your " and the query, and ends with a full stop; a missing description is shown as `None` and the tags are joined with ", " |
| VideoRouter.StripAll | backend/app/routers/video.py:117 | each piece is stripped, in order |
| VideoRouter.TagListSound | backend/app/routers/video.py:117 | every tag is non-empty, stripped, has no comma and is the stripped form of a piece of the query |
| VideoRouter.TagListComplete | backend/app/routers/video.py:117 | every piece that is not blank contributes its stripped form |
| VideoRouter.ParseTags | backend/app/routers/video.py:117-122 | 400 "At least one tag must be provided" exactly when every piece is blank; otherwise the non-empty tag list |
| VideoRouter.TagList | backend/app/routers/video.py:117 | the stripped non-blank pieces between commas, whose properties `VideoRouter.TagListSound` and `VideoRouter.TagListComplete` state |
| VideoRouter.SearchVideosByTagsRoute | backend/app/routers/video.py:109-125 | the route rejects a blank tag query and otherwise returns the repository's tag search for the parsed tags |
| VideoRouter.BoundsError | backend/app/routers/video.py:137-155 | a bound range is rejected exactly when a bound is negative or min > max; the messages are checked in that order |
| VideoRouter.EqualBoundsAccepted | backend/app/routers/video.py:147-155 | equal bounds are accepted |
| VideoRouter.SearchVideosByDurationRoute | backend/app/routers/video.py:128-160 | 400 exactly when a duration bound is negative or min > max; otherwise exactly the repository's duration query for those bounds and that page |
| VideoRouter.SearchVideosByFrameCountRoute | backend/app/routers/video.py:163-191 | the same rules for frame counts, and otherwise the repository's frame-count query |
| VideoRouter.GetVideosRoute | backend/app/routers/video.py:91-106 | `tagged_only` True, False or None gives exactly the tagged, the untagged or the full listing for the page |
| VideoRouter.ListingsPartition | backend/app/routers/video.py:99-104 | unpaged, the tagged and the untagged listing together are as long as the full one |
| VideoRouter.GetVideoRoute | backend/app/routers/video.py:78-88 | 404 "Video not found" exactly when no row has the id |
| VideoRouter.StoreAudio | backend/app/routers/video.py:40-56 | an audio id results exactly when audio is sent, transcription succeeds and the id is free; then exactly one audio row is added; any failure leaves the audio id None and adds nothing |
| VideoRouter.CreateVideoRouteAsWritten | backend/app/routers/video.py:39-75 | as written, every request ends in 400, because `description=` is not a parameter of `create_video`; the audio table afterwards is the old one plus the transcribed row exactly when audio was sent, transcribed and its id was free, and no video is stored |
| VideoRouter.CreateVideoRoute | backend/app/routers/video.py:39-75 | with the description accepted: the audio table gains the transcribed row exactly when the audio step succeeds; one new video row with the body's fields, the stored duration and, as audio id, the new audio row's id exactly when that step succeeded; a default frames tuple or a taken id gives 400 and no video |
| VideoRouter.StripNone | backend/app/routers/video.py:227 | the pairs kept are exactly the non-None ones, unwrapped |
| VideoRouter.Dump | backend/app/routers/video.py:208-227 | the update body as a list of its six fields; with `StripNone` it gives the entries that `model_dump(exclude_unset=True)` and the `None` filter keep |
| VideoRouter.AsMap | backend/app/routers/video.py:227 | the dictionary of the kept entries has exactly their keys, and the first entry's value under its key |
| VideoRouter.UpdateVideoRoute | backend/app/routers/video.py:194-239 | the dict is passed as `description`, so the repository always rejects it and the route always answers 400 |
| ImageRouter.Disk.constructor | backend/app/routers/image.py:110 | the images directory starts empty |
| ImageRouter.FileName | backend/app/routers/image.py:105-107 | a frame's file name is a fresh UUID followed by `.b64`, 40 characters long |
| ImageRouter.FrameRows | backend/app/routers/image.py:104-126 | one row per frame |
| ImageRouter.FrameRow | backend/app/routers/image.py:117-126 | the row of frame i: a fresh id, the frame's file, no description, tags or embeddings, untagged, the shared audio id and the request's coordinates; `ImageRouter.FrameRowsFacts` states it |
| ImageRouter.FrameRowsFacts | backend/app/routers/image.py:117-126 | each frame's row has no description, no tags, no embeddings, `tagged` false, its own file name, the shared audio id and the shared coordinates |
| ImageRouter.FramePaths | backend/app/routers/image.py:108 | the frames' files lie under `images/` |
| ImageRouter.WrittenHoldsFrame | backend/app/routers/image.py:113-114 | with distinct paths, frame i's file holds frame i's data |
| ImageRouter.Written | backend/app/routers/image.py:113-114 | the directory after the first n frame files are written, each write replacing the file at its path; `ImageRouter.WrittenFiles`, `ImageRouter.WrittenHoldsFrame` and `ImageRouter.WrittenKeepsOthers` state its contents |
| ImageRouter.WrittenFiles | backend/app/routers/image.py:113-114 | after n writes the directory holds the old files and the first n frame paths, and no other file |
| ImageRouter.WrittenKeepsOthers | backend/app/routers/image.py:113-114 | files the frames do not name are left as they were |
| ImageRouter.FirstClashIsFirst | backend/app/routers/image.py:104-126 | no frame before `FirstClash` has a taken row id, and the frame there has one unless it is past the end |
| ImageRouter.FirstClash | backend/app/routers/image.py:104-126 | the index of the first frame from i on whose row id is taken, between i and the frame count |
| ImageRouter.StoreFrame | backend/app/routers/image.py:105-126 | one iteration writes one file and creates one row, or fails on a taken id after writing the file |
| ImageRouter.FrameStep | backend/app/routers/image.py:105-126 | one iteration either extends the stored rows and files by one, or stops at the first clash with one file more than rows |
| ImageRouter.StoreFrameStep | backend/app/routers/image.py:105-126 | from a state that holds the first `i` rows and files, an iteration reaches the next such state or the clash state |
| ImageRouter.FramesOutcome | backend/app/routers/image.py:103-133 | when the loop ends, the rows stored are those before the first clash, and the files one more whenever there is a clash |
| ImageRouter.StoreFrames | backend/app/routers/image.py:103-133 | the rows of the frames up to the first clash are appended in order, each with its file written; without a clash the response is the last frame's row, otherwise 500 |
| ImageRouter.UploadImage | backend/app/routers/image.py:57-133 | the audio row comes first, and its failure gives 400 with no change; empty frames then give 400 with the audio row already stored and no image or file; otherwise the frames are stored as `StoreFrames` states |
| ImageRouter.UploadedFilesHoldFrames | backend/app/routers/image.py:105-118 | with distinct file names, each stored row's file holds that row's frame |
| ImageRouter.GetImagesByTranscript | backend/app/routers/image.py:154-184 | 400 "Audio transcript cannot be empty" exactly when the transcript is blank; otherwise images from the table, at most `min(limit, 50)`, non-empty when the limit is non-zero and images exist, and exactly the similarity ranking with `min(limit, 50)`, or the newest images when the query embedding fails, is empty or ranks nothing |

## Left out

- The AI services are parameters to the model: the embedding call (`embedding.py:17-23`), image analysis (`tagging.py:141-143`) and chat generation (`agent.py:239-245`). The embedding SDK's result object is taken to be a list of reals.
- `app/utils/transcription.py` is not part of this model. The routes take transcription as a parameter that may fail.
- `app/utils/image_utils.py` is not part of this model. That covers file reading and base64; reading a file and decoding base64 are parameters.
- `_read_image_base64` and `_enrich_images_with_base64` in the image repository only read files to fill an unstored field. The model returns the rows themselves.
- `get_image_by_path`, `get_image_locations`, `get_video_locations` and `get_video_by_audio_id` are outside this model.
- Floating point: coordinates, frame rates, durations and scores are exact reals, and `sqrt` is a parameter. IEEE rounding is not modelled.
- Concurrency and scheduling: the worker's `while True` loop, its 15-second sleep and the asyncio task are left out. `Worker.Tick` is one pass.
- Logging with `print` is left out.
- SQL mechanics are left out: sessions, commit and refresh. `scalar_one_or_none` raising on duplicate rows cannot happen while primary keys are unique.
- The JSON `contains` on tags and `ilike` are approximated. In `find_item` and `search_audio_by_transcription`, a row matches when a tag or the text contains the query up to ASCII case. `LIKE` wildcards in the query and matching inside the JSON text (e.g. across tag boundaries or on quotes) are not modelled.
- `Find.FindItem`: the tags of a row are stored as a list of strings, so the branch of `find.py:70` for non-list tags cannot arise.
- `ChatAgent.__init__` (`agent.py:39-44`) is not modelled beyond the two fields it sets. That leaves out reading and checking the API key and configuring the model.
- The chat WebSocket endpoint (`agent.py:269-359`) is I/O and is left out.
- `Agent.Show`: datetimes and floats inside f-strings are rendered by given functions. Python's `str` of them is not modelled.
- `Worker.AsTags` and `Worker.AsText`: a non-string JSON value is written to the tags or description column as it arrives in Python. The model keeps the string parts of a list for tags and an empty text for other values; only whether the value is null is exact.
- `ImageInput`, imported by `routers/image.py:19`, is not defined in `app/models/models.py`, so the module as written fails at import. `ImageRouter.ImageInput` takes its fields (`frames`, `transcript`, `latitude`, `longitude`) from the route's use of it.
- The routes' response validation (`model_validate`) is not modelled; routes return the rows.
- Exception texts (`str(e)`) are fixed constants in the model, e.g. `VideoRouter.UnexpectedDescription`, `ImageRouter.DuplicateAudio`.
- Not modelled in `routers/image.py`: `get_images`, `get_image_by_id`, `update_image`, `delete_image` and the two stats routes. They only forward to repository operations that are modelled.
- Not modelled in `routers/video.py`: `delete_video`, `get_video_stats` and `get_video_locations`, which likewise only forward.
- `get_videos_by_audio` (`video.py:273-309`) calls a repository method that does not exist, and is not modelled.
- `upload_image` may raise an unexpected exception mid-loop. The model maps this to 500 "Internal Server Error", the framework's reply.
- `ImageRepo.JoinRows` lists the join in image order and then audio order. SQL leaves the order of a join unspecified, and after the stable sort that order decides how images with equal scores are ranked, so the model fixes one possible order.
- `image_repository.py:280-286` is unreachable after the return at line 279 and has no model.

## Findings

| source | as written | input that shows it | evidently intended | confidence | as-written member | corrected member |
|---|---|---|---|---|---|---|
| backend/app/routers/video.py:59-69 | `create_video` passes `description=` to `VideoRepository.create_video`, whose signature (`video_repository.py:43-53`) has no such parameter, so every call raises TypeError and the route answers 400 | any valid `VideoCreate` body | the video is stored with the body's description | high (not executed) | VideoRouter.CreateVideoRouteAsWritten | VideoRouter.CreateVideoRoute |
| backend/app/agent/agent.py:173 | the video detail loop appends to `video_info`, which is never bound, so `prepare_context` fails as soon as a second video is fetched (the first even position) | two videos in the store and an empty cache | each even-positioned video gets its own block, as images do | high (not executed) | Agent.RenderVideoDetails | Agent.DetailsEveryOther |
| backend/app/utils/background_worker.py:33-35 | result i is written to the i-th fetched image, but the tagger only answers for the images that loaded (`tagging.py:132` and `tagging.py:157`), so a failed load shifts every later answer onto the wrong image | a batch of two untagged images whose first file does not load | each answer goes to the image whose path it was returned for | high (not executed) | Worker.PositionPairingMisassigns | Worker.CommitByPathPairsCorrectly |
