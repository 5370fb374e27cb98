/** One pass of `fire_image_tagging_worker`: fetch the newest untagged
    images, ask the tagger about their files, and write each returned
    analysis back to an image. The endless loop, its 15 second sleep and
    the session around a pass are not modelled; the tagger is a parameter. */
module Worker {
  import opened Wrappers
  import opened Records
  import opened Seqs
  import opened MediaStore
  import opened ImageRepo
  import Tagging

  const BatchSize := 10

  /** How a pass ends. `Failed` is an exception caught by the loop. */
  datatype TickOutcome =
    | NoUntaggedImages
    | TaggingError(error: string)
    | Tagged(reported: nat)          // "Successfully tagged {len(batch_results)} images"
    | Failed(reason: string)

  const NotIterable := "batch_results is not iterable"
  const NoGet := "a result has no attribute 'get'"

  function Paths(images: seq<ImageRecord>): (paths: seq<string>)
    ensures |paths| == |images| && forall i | 0 <= i < |images| :: paths[i] == images[i].path
  {
    seq(|images|, i requires 0 <= i < |images| => images[i].path)
  }

  /** `d.get(key, default)`. */
  function Get(fields: map<string, Json>, key: string, default: Json): (v: Json)
    ensures key in fields ==> v == fields[key]
    ensures key !in fields ==> v == default
  {
    if key in fields then fields[key] else default
  }

  /** The string items of a JSON list. */
  function Strings(items: seq<Json>): (r: seq<string>)
    ensures |r| <= |items|
    ensures forall s | s in r :: JStr(s) in items
    ensures forall s | JStr(s) in items :: s in r
  {
    if items == [] then []
    else (if items[0].JStr? then [items[0].s] else []) + Strings(items[1..])
  }

  /** The `tags` value as the `tags` column receives it: JSON null is
      Python's None and is not written. */
  function AsTags(j: Json): (r: Option<seq<string>>)
    ensures r.None? <==> j.JNull?
  {
    match j
    case JNull => None
    case JArr(items) => Some(Strings(items))
    case _ => Some([])
  }

  /** The `description` value as the `description` column receives it. */
  function AsText(j: Json): (r: Option<string>)
    ensures r.None? <==> j.JNull?
    ensures j.JStr? ==> r == Some(j.s)
  {
    match j
    case JNull => None
    case JStr(s) => Some(s)
    case _ => Some("")
  }

  /** The columns written for one analysis: its tags (default []), its
      description (default "") and `tagged = True`. */
  function ResultChanges(fields: map<string, Json>): (c: ImageChanges)
    ensures c.tagged == Some(true) && c.embeddings.None? && c.latitude.None? && c.longitude.None?
    ensures "tags" !in fields ==> c.tags == Some([])
    ensures "description" !in fields ==> c.description == Some("")
  {
    ImageChanges(AsText(Get(fields, "description", JStr(""))), AsTags(Get(fields, "tags", JArr([]))),
                 None, Some(true), None, None)
  }

  /** The table after results are written to the batch by position: result
      i goes to `batch[i]` while both lists last; a result that is not an
      object stops the pass (the flag is then true), keeping the writes
      already made. */
  function Commit(images: seq<ImageRecord>, batch: seq<ImageRecord>, results: seq<Json>)
    : (r: (seq<ImageRecord>, bool))
    ensures |r.0| == |images|
    ensures forall j | 0 <= j < |images| :: r.0[j].id == images[j].id
    decreases |batch|
  {
    if batch == [] || results == [] then (images, false)
    else if !results[0].JObj? then (images, true)
    else Commit(UpdateWhere(images, batch[0].id, ResultChanges(results[0].fields)), batch[1..], results[1..])
  }

  /** How many results `Commit` writes. */
  function Written(batch: seq<ImageRecord>, results: seq<Json>): (n: nat)
    ensures n <= |batch| && n <= |results|
    ensures n < |batch| && n < |results| ==> !results[n].JObj?
    ensures forall k | 0 <= k < n :: results[k].JObj?
    decreases |batch|
  {
    if batch == [] || results == [] || !results[0].JObj? then 0
    else 1 + Written(batch[1..], results[1..])
  }

  /** One pass. `taggerInput` is what the tagger was given, None when it
      was not called. */
  method Tick(repo: ImageRepository, tagger: seq<string> -> Tagging.TaggingResult)
    returns (outcome: TickOutcome, taggerInput: Option<seq<string>>)
    requires repo.store.Valid()
    modifies repo.store
    ensures repo.store.Valid()
    ensures repo.store.videos == old(repo.store.videos) && repo.store.audios == old(repo.store.audios)
    ensures var batch := old(repo.GetUntaggedImages(0, BatchSize));
      |batch| <= BatchSize
      && (batch == [] <==> outcome == NoUntaggedImages)
      && (batch == [] ==> taggerInput.None? && repo.store.images == old(repo.store.images))
      && (batch != [] ==> taggerInput == Some(Paths(batch)))
    ensures taggerInput.Some? ==> match tagger(taggerInput.value)
      case Raised(message) => outcome == Failed(message) && repo.store.images == old(repo.store.images)
      case ErrorDict(error, _) => outcome == TaggingError(error) && repo.store.images == old(repo.store.images)
      case Batch(j, _) => match j
        case JArr(items) =>
          var done := Commit(old(repo.store.images), old(repo.GetUntaggedImages(0, BatchSize)), items);
          repo.store.images == done.0 && outcome == (if done.1 then Failed(NoGet) else Tagged(|items|))
        case JObj(fields) =>
          repo.store.images == old(repo.store.images) && outcome == (if fields == map[] then Tagged(0) else Failed(NoGet))
        case JStr(s) =>
          repo.store.images == old(repo.store.images) && outcome == (if s == "" then Tagged(0) else Failed(NoGet))
        case _ => repo.store.images == old(repo.store.images) && outcome == Failed(NotIterable)
  {
    var untaggedImages := repo.GetUntaggedImages(0, BatchSize);
    if untaggedImages == [] {
      return NoUntaggedImages, None;
    }
    var imagePaths := Paths(untaggedImages);
    taggerInput := Some(imagePaths);
    var taggingResults := tagger(imagePaths);
    match taggingResults {
      case Raised(message) =>
        return Failed(message), taggerInput;
      case ErrorDict(error, _) =>
        return TaggingError(error), taggerInput;
      case Batch(batchResults, _) =>
        match batchResults {
          case JArr(items) =>
            outcome := CommitResults(repo, untaggedImages, items);
          case JObj(fields) =>
            outcome := if fields == map[] then Tagged(0) else Failed(NoGet);
          case JStr(s) =>
            outcome := if s == "" then Tagged(0) else Failed(NoGet);
          case _ =>
            outcome := Failed(NotIterable);
        }
    }
  }

  /** The `for i, result in enumerate(batch_results)` loop. */
  method CommitResults(repo: ImageRepository, batch: seq<ImageRecord>, items: seq<Json>)
    returns (outcome: TickOutcome)
    requires repo.store.Valid()
    modifies repo.store
    ensures repo.store.Valid()
    ensures repo.store.videos == old(repo.store.videos) && repo.store.audios == old(repo.store.audios)
    ensures var done := Commit(old(repo.store.images), batch, items);
      repo.store.images == done.0 && outcome == (if done.1 then Failed(NoGet) else Tagged(|items|))
  {
    var i := 0;
    while i < |items|
      invariant 0 <= i <= |items|
      invariant repo.store.Valid()
      invariant repo.store.videos == old(repo.store.videos) && repo.store.audios == old(repo.store.audios)
      invariant Commit(old(repo.store.images), batch, items)
                == Commit(repo.store.images, batch[Min(i, |batch|)..], items[i..])
    {
      if i < |batch| {
        var result := items[i];
        if !result.JObj? {
          return Failed(NoGet);
        }
        var image := batch[i];
        var c := ResultChanges(result.fields);
        assert batch[i..][1..] == batch[i + 1..] && items[i..][1..] == items[i + 1..];
        var _ := repo.UpdateImage(image.id, tags := c.tags, description := c.description, tagged := Some(true));
      }
      i := i + 1;
    }
    outcome := Tagged(|items|);
  }

  // ---------------------------------------------------------------------
  // What a pass writes.

  /** Rows whose id is not among the batch images that receive a result
      are left as they were. */
  lemma {:induction false} CommitKeepsOthers(images: seq<ImageRecord>, batch: seq<ImageRecord>,
                                             results: seq<Json>, j: int)
    requires 0 <= j < |images|
    requires forall k | 0 <= k < Written(batch, results) :: batch[k].id != images[j].id
    ensures Commit(images, batch, results).0[j] == images[j]
    decreases |batch|
  {
    if batch != [] && results != [] && results[0].JObj? {
      var next := UpdateWhere(images, batch[0].id, ResultChanges(results[0].fields));
      assert batch[0].id != images[j].id;
      forall k | 0 <= k < Written(batch[1..], results[1..])
        ensures batch[1..][k].id != next[j].id
      {
        assert batch[1..][k] == batch[k + 1];
      }
      CommitKeepsOthers(next, batch[1..], results[1..], j);
    }
  }

  /** Every row that receives a result ends up tagged. */
  lemma {:induction false} CommitTags(images: seq<ImageRecord>, batch: seq<ImageRecord>,
                                      results: seq<Json>, j: int, k: int)
    requires 0 <= j < |images| && 0 <= k < Written(batch, results) && batch[k].id == images[j].id
    ensures Commit(images, batch, results).0[j].tagged
    decreases |batch|
  {
    var next := UpdateWhere(images, batch[0].id, ResultChanges(results[0].fields));
    if k == 0 {
      assert next[j].tagged;
      CommitKeepsTagged(next, batch[1..], results[1..], j);
    } else {
      assert batch[1..][k - 1] == batch[k];
      CommitTags(next, batch[1..], results[1..], j, k - 1);
    }
  }

  /** Writes never clear the flag. */
  lemma {:induction false} CommitKeepsTagged(images: seq<ImageRecord>, batch: seq<ImageRecord>,
                                             results: seq<Json>, j: int)
    requires 0 <= j < |images| && images[j].tagged
    ensures Commit(images, batch, results).0[j].tagged
    decreases |batch|
  {
    if batch != [] && results != [] && results[0].JObj? {
      var next := UpdateWhere(images, batch[0].id, ResultChanges(results[0].fields));
      CommitKeepsTagged(next, batch[1..], results[1..], j);
    }
  }

  /** With unique ids in the batch, a batch image past the last result is
      not written and stays untagged for a later pass. */
  lemma BatchTailUntouched(images: seq<ImageRecord>, batch: seq<ImageRecord>, results: seq<Json>,
                           j: int, k: int)
    requires KeysDistinct(batch, ImageId)
    requires 0 <= j < |images| && |results| <= k < |batch| && batch[k].id == images[j].id
    ensures Commit(images, batch, results).0[j] == images[j]
  {
    forall l | 0 <= l < Written(batch, results) ensures batch[l].id != images[j].id {
      assert ImageId(batch[l]) != ImageId(batch[k]);
    }
    CommitKeepsOthers(images, batch, results, j);
  }

  // ---------------------------------------------------------------------
  // Pairing by position.

  /** The tagger returns its answers for the images that loaded, in the
      order of `image_paths`. When the first of two images fails to load,
      the one answer, which describes the second image, is written to the
      first image, and the second image stays untagged. */
  lemma PositionPairingMisassigns(a: ImageRecord, b: ImageRecord, tags: seq<string>)
    requires a.id != b.id && !a.tagged && !b.tagged
    ensures var answer := JObj(map["tags" := JArr(seq(|tags|, i requires 0 <= i < |tags| => JStr(tags[i])))]);
      var after := Commit([a, b], [a, b], [answer]).0;
      after[0].tagged && after[0].tags == tags && after[1] == b
  {
    var items := seq(|tags|, i requires 0 <= i < |tags| => JStr(tags[i]));
    var answer := JObj(map["tags" := JArr(items)]);
    StringsOfStrings(tags);
    var next := UpdateWhere([a, b], a.id, ResultChanges(answer.fields));
    assert [a, b][1..] == [b] && [answer][1..] == [];
    assert Commit([a, b], [a, b], [answer]) == Commit(next, [b], []);
  }

  lemma {:induction false} StringsOfStrings(tags: seq<string>)
    ensures Strings(seq(|tags|, i requires 0 <= i < |tags| => JStr(tags[i]))) == tags
  {
    if tags != [] {
      StringsOfStrings(tags[1..]);
      var items := seq(|tags|, i requires 0 <= i < |tags| => JStr(tags[i]));
      assert items[1..] == seq(|tags[1..]|, i requires 0 <= i < |tags[1..]| => JStr(tags[1..][i]));
      assert tags == [tags[0]] + tags[1..];
    }
  }

  /** The batch images whose file loaded, in batch order: the images the
      returned answers describe. */
  function Described(batch: seq<ImageRecord>, loads: string -> bool): (r: seq<ImageRecord>)
    ensures forall x | x in r :: x in batch && loads(x.path)
  {
    if batch == [] then []
    else (if loads(batch[0].path) then [batch[0]] else []) + Described(batch[1..], loads)
  }

  /** The paths of the described images are the paths the tagger reports. */
  lemma {:induction false} DescribedPaths(batch: seq<ImageRecord>, loads: string -> bool)
    ensures Paths(Described(batch, loads)) == Filter(Paths(batch), loads)
  {
    if batch != [] {
      DescribedPaths(batch[1..], loads);
      var paths := Paths(batch);
      assert paths[1..] == Paths(batch[1..]);
      assert paths[0] == batch[0].path;
      var head := if loads(batch[0].path) then [batch[0]] else [];
      PathsConcat(head, Described(batch[1..], loads));
      assert Paths(head) == if loads(paths[0]) then [paths[0]] else [];
    }
  }

  lemma PathsConcat(a: seq<ImageRecord>, b: seq<ImageRecord>)
    ensures Paths(a + b) == Paths(a) + Paths(b)
  {
  }

  /** Results written to the described images, position by position: answer
      i goes to the image whose path is the i-th reported path. */
  function CommitByPath(images: seq<ImageRecord>, batch: seq<ImageRecord>, loads: string -> bool,
                        results: seq<Json>): (r: (seq<ImageRecord>, bool))
    ensures |r.0| == |images|
  {
    Commit(images, Described(batch, loads), results)
  }

  /** Pairing through the reported paths gives every written answer to the
      image it describes. */
  lemma CommitByPathPairsCorrectly(batch: seq<ImageRecord>, loads: string -> bool, imagePaths: seq<string>, k: int)
    requires imagePaths == Filter(Paths(batch), loads)
    requires 0 <= k < |Described(batch, loads)| && k < |imagePaths|
    ensures Described(batch, loads)[k].path == imagePaths[k]
  {
    DescribedPaths(batch, loads);
  }
}
