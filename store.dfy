/** The database behind the repositories: one table per record type, in
    insertion order, with the primary key `id` unique in each table. */
module MediaStore {
  import opened Wrappers
  import opened Records
  import opened Seqs

  /** Errors the database layer raises. */
  datatype DbError =
    | DuplicateKey          // IntegrityError: the primary key is taken
    | NonStringKeyword      // TypeError: `values(**d)` with a column object as key

  class Store {
    var images: seq<ImageRecord>
    var videos: seq<VideoRecord>
    var audios: seq<AudioRecord>

    /** Primary keys are unique in every table. */
    ghost predicate Valid()
      reads this
    {
      KeysDistinct(images, ImageId) && KeysDistinct(videos, VideoId)
      && KeysDistinct(audios, AudioId)
    }

    constructor ()
      ensures images == [] && videos == [] && audios == []
      ensures Valid()
    {
      images, videos, audios := [], [], [];
    }
  }

  // ---------------------------------------------------------------------
  // Access by primary key.

  predicate HasKey<T>(s: seq<T>, key: T -> string, id: string) {
    exists i | 0 <= i < |s| :: key(s[i]) == id
  }

  lemma HasKeyMember<T>(s: seq<T>, key: T -> string, id: string)
    ensures HasKey(s, key, id) <==> exists x | x in s :: key(x) == id
  {
    if exists x | x in s :: key(x) == id {
      var x :| x in s && key(x) == id;
      var i :| 0 <= i < |s| && s[i] == x;
    }
  }

  /** Position of the first row whose key is `id`, or -1. */
  function KeyIndex<T>(s: seq<T>, key: T -> string, id: string): (i: int)
    ensures -1 <= i < |s|
    ensures i >= 0 ==> key(s[i]) == id
    ensures forall j | 0 <= j < |s| && (i < 0 || j < i) :: key(s[j]) != id
    ensures i < 0 <==> !HasKey(s, key, id)
  {
    if s == [] then -1
    else if key(s[0]) == id then 0
    else
      var j := KeyIndex(s[1..], key, id);
      assert forall k | 1 <= k < |s| :: s[k] == s[1..][k - 1];
      if j < 0 then -1 else j + 1
  }

  /** `SELECT ... WHERE id = :id` followed by `scalar_one_or_none()`. */
  function Lookup<T>(s: seq<T>, key: T -> string, id: string): (r: Option<T>)
    ensures r.Some? <==> HasKey(s, key, id)
    ensures r.Some? ==> r.value in s && key(r.value) == id
  {
    var i := KeyIndex(s, key, id);
    if i < 0 then None else Some(s[i])
  }

  function KeyIsNot<T>(key: T -> string, id: string): T -> bool {
    x => key(x) != id
  }

  /** `DELETE ... WHERE id = :id`. */
  function Without<T>(s: seq<T>, key: T -> string, id: string): (r: seq<T>)
    ensures forall x | x in r :: key(x) != id
    ensures forall x | x in s && key(x) != id :: x in r
    ensures multiset(r) <= multiset(s)
  {
    Filter(s, KeyIsNot(key, id))
  }

  /** With unique keys, deleting an existing key removes exactly the one
      row holding it and keeps the order of the others. */
  lemma WithoutRemovesOne<T>(s: seq<T>, key: T -> string, id: string)
    requires KeysDistinct(s, key)
    requires HasKey(s, key, id)
    ensures var i := KeyIndex(s, key, id);
      Without(s, key, id) == s[..i] + s[i + 1..]
  {
    var i := KeyIndex(s, key, id);
    KeptAround(s, key, id, i);
    WithoutAt(s, key, id, i);
  }

  /** Deleting the key of row `i` keeps the rows around it when they all
      pass the filter. */
  lemma WithoutAt<T>(s: seq<T>, key: T -> string, id: string, i: int)
    requires 0 <= i < |s| && key(s[i]) == id
    requires Filter(s[..i], KeyIsNot(key, id)) == s[..i]
    requires Filter(s[i + 1..], KeyIsNot(key, id)) == s[i + 1..]
    ensures Without(s, key, id) == s[..i] + s[i + 1..]
  {
    var p := KeyIsNot(key, id);
    var a, b := s[..i], s[i + 1..];
    assert !p(s[i]);
    FilterCons(s[i], b, p);
    assert Filter([s[i]] + b, p) == b;
    FilterConcat(a, [s[i]] + b, p);
    SplitAround(s, i);
    assert Filter(s, p) == a + b;
  }

  lemma SplitAround<T>(s: seq<T>, i: int)
    requires 0 <= i < |s|
    ensures s == s[..i] + ([s[i]] + s[i + 1..])
  {
  }

  /** The rows before and after the one holding a unique key all pass the
      deletion's filter. */
  lemma KeptAround<T>(s: seq<T>, key: T -> string, id: string, i: int)
    requires KeysDistinct(s, key)
    requires 0 <= i < |s| && key(s[i]) == id
    ensures Filter(s[..i], KeyIsNot(key, id)) == s[..i]
    ensures Filter(s[i + 1..], KeyIsNot(key, id)) == s[i + 1..]
  {
    var p := KeyIsNot(key, id);
    var a, b := s[..i], s[i + 1..];
    forall x | x in a ensures p(x) {
      var k :| 0 <= k < |a| && a[k] == x;
      assert s[k] == x;
    }
    FilterAll(a, p);
    forall x | x in b ensures p(x) {
      var k :| 0 <= k < |b| && b[k] == x;
      assert s[i + 1 + k] == x;
      assert key(s[i + 1 + k]) != key(s[i]);
    }
    FilterAll(b, p);
  }

  lemma WithoutAbsent<T>(s: seq<T>, key: T -> string, id: string)
    requires !HasKey(s, key, id)
    ensures Without(s, key, id) == s
  {
    forall x | x in s ensures key(x) != id {
      var k :| 0 <= k < |s| && s[k] == x;
    }
    FilterAll(s, KeyIsNot(key, id));
  }

  /** Replacing a row by one with the same key keeps the keys unique. */
  lemma ReplaceKeepsKeys<T>(s: seq<T>, key: T -> string, i: int, x: T)
    requires KeysDistinct(s, key) && 0 <= i < |s| && key(x) == key(s[i])
    ensures KeysDistinct(s[i := x], key)
  {
  }

  /** Appending a row with a fresh key keeps the keys unique. */
  lemma AppendKeepsKeys<T>(s: seq<T>, key: T -> string, x: T)
    requires KeysDistinct(s, key) && !HasKey(s, key, key(x))
    ensures KeysDistinct(s + [x], key)
  {
  }

  /** Deleting rows keeps the keys unique. */
  lemma WithoutKeepsKeys<T>(s: seq<T>, key: T -> string, id: string)
    requires KeysDistinct(s, key)
    ensures KeysDistinct(Without(s, key, id), key)
  {
    KeysDistinctSub(s, Without(s, key, id), key);
  }
}
