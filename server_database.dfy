/**
 * pkg/server/database.go: the BoltDB metadata store. Two independent buckets, "pictures" and
 * "instagram", map the 16-byte binary form of a record id to the record's JSON document.
 */
module ServerDatabase {
  import opened Wrappers
  import opened GoHex
  import opened GoUuid
  import opened Models
  import opened HelperUtils

  type Key = seq<byte>

  /** A stored JSON document: the encoding of a record, or bytes that do not decode as one. */
  datatype Raw<T> = Encoded(record: T) | Corrupt(bytes: seq<byte>)

  /** json.Marshal, abstracted: encoding a record always succeeds. */
  function Marshal<T>(x: T): (r: Raw<T>)
    ensures r.Encoded? && Unmarshal(r) == Some(x)
  {
    Encoded(x)
  }

  /** json.Unmarshal, abstracted: fails exactly on a document that is not an encoded record. */
  function Unmarshal<T>(r: Raw<T>): (x: Option<T>)
    ensures x.Some? <==> r.Encoded?
  {
    match r
    case Encoded(v) => Some(v)
    case Corrupt(_) => None
  }

  /** Every document that decodes is the encoding of what it decodes to. */
  lemma UnmarshalMarshal<T>(r: Raw<T>)
    requires Unmarshal(r).Some?
    ensures Marshal(Unmarshal(r).value) == r
  {
  }

  type Bucket<T> = map<Key, Raw<T>>

  /** The bucket key of a record id (helper.UUIDtoBytes). */
  function KeyOf(id: Uuid): (k: Key)
    ensures |k| == 16 && k == id
  {
    UUIDtoBytes(id)
  }

  /** Errors of the store; the text is what the Go code puts in error.Error(). */
  datatype DbError = CantOpenBucket | NotFound | DecodeFailed | CommitFailed {
    function Message(): string {
      match this
      case CantOpenBucket => "can't open bucket"
      case NotFound => "not found"
      case DecodeFailed => "invalid character in JSON document"
      case CommitFailed => "commit failed"
    }
  }

  /** bolt's tx.CreateBucketIfNotExists seen from the bucket: a missing bucket starts out empty. */
  function BucketOrEmpty<T>(b: Option<Bucket<T>>): (r: Bucket<T>)
    ensures b.Some? ==> r == b.value
    ensures b.None? ==> |r| == 0
  {
    if b.Some? then b.value else map[]
  }

  /** The body of getDbPicture / getDbInstagram: open the bucket, get the key, decode. */
  function Lookup<T>(bucket: Option<Bucket<T>>, id: Uuid): (r: Result<T, DbError>)
    ensures r == Err(CantOpenBucket) <==> bucket.None?
    ensures r == Err(NotFound) <==> bucket.Some? && KeyOf(id) !in bucket.value
    ensures r.Ok? <==> bucket.Some? && KeyOf(id) in bucket.value && bucket.value[KeyOf(id)].Encoded?
    ensures r.Ok? ==> bucket.value[KeyOf(id)] == Marshal(r.value)
    ensures r.Err? ==> r.error in {CantOpenBucket, NotFound, DecodeFailed}
  {
    if bucket.None? then Err(CantOpenBucket)
    else if KeyOf(id) !in bucket.value then Err(NotFound)
    else match Unmarshal(bucket.value[KeyOf(id)])
      case None => Err(DecodeFailed)
      case Some(x) => Ok(x)
  }

  /** After a Put of x under id, a get of id returns x. */
  lemma LookupAfterPut<T>(bucket: Bucket<T>, id: Uuid, x: T)
    ensures Lookup(Some(bucket[KeyOf(id) := Marshal(x)]), id) == Ok(x)
  {
  }

  /** A Put or Delete of one id leaves the gets of every other id as they were. */
  lemma LookupOtherKey<T>(bucket: Bucket<T>, id: Uuid, other: Uuid, x: T)
    requires other != id
    ensures Lookup(Some(bucket[KeyOf(id) := Marshal(x)]), other) == Lookup(Some(bucket), other)
    ensures Lookup(Some(bucket - {KeyOf(id)}), other) == Lookup(Some(bucket), other)
  {
  }

  /** After a Delete of id, a get of id fails "not found". */
  lemma LookupAfterDelete<T>(bucket: Bucket<T>, id: Uuid)
    ensures Lookup(Some(bucket - {KeyOf(id)}), id) == Err(NotFound)
  {
  }

  /** Every key in order is a key of the bucket. */
  ghost predicate InBucket<T>(bucket: Bucket<T>, order: seq<Key>) {
    forall i :: 0 <= i < |order| ==> order[i] in bucket
  }

  /** order lists every key of the bucket exactly once: one run of bucket.ForEach. */
  ghost predicate Enumerates<T>(order: seq<Key>, bucket: Bucket<T>) {
    InBucket(bucket, order)
    && (forall k :: k in bucket ==> k in order)
    && (forall i, j :: 0 <= i < j < |order| ==> order[i] != order[j])
    && |order| == |bucket|
  }

  /** The records that a ForEach over the keys in order appends: undecodable documents are skipped. */
  function DecodedInOrder<T>(bucket: Bucket<T>, order: seq<Key>): (r: seq<T>)
    requires InBucket(bucket, order)
    ensures |r| <= |order|
  {
    if order == [] then []
    else
      var k := order[|order| - 1];
      DecodedInOrder(bucket, order[..|order| - 1])
        + match Unmarshal(bucket[k]) { case Some(x) => [x] case None => [] }
  }

  /** The bucket holds a document encoding x. */
  ghost predicate Stored<T>(bucket: Bucket<T>, x: T) {
    exists k :: k in bucket && bucket[k] == Encoded(x)
  }

  /** A record is listed iff its document sits under one of the enumerated keys. */
  lemma {:induction false} DecodedMembers<T>(bucket: Bucket<T>, order: seq<Key>, x: T)
    requires InBucket(bucket, order)
    ensures x in DecodedInOrder(bucket, order) <==> exists i :: 0 <= i < |order| && bucket[order[i]] == Encoded(x)
  {
    if order != [] {
      var front := order[..|order| - 1];
      DecodedMembers(bucket, front, x);
      assert forall i :: 0 <= i < |front| ==> front[i] == order[i];
    }
  }

  /** No document in the bucket is corrupt. */
  ghost predicate AllDecodable<T>(bucket: Bucket<T>) {
    forall k :: k in bucket ==> bucket[k].Encoded?
  }

  /** Without corrupt documents nothing is skipped: one record per enumerated key. */
  lemma {:induction false} DecodedAll<T>(bucket: Bucket<T>, order: seq<Key>)
    requires InBucket(bucket, order) && AllDecodable(bucket)
    ensures |DecodedInOrder(bucket, order)| == |order|
  {
    if order != [] {
      DecodedAll(bucket, order[..|order| - 1]);
    }
  }

  /** A full enumeration lists exactly the stored records, and all of them when none is corrupt. */
  lemma ListedRecords<T>(bucket: Bucket<T>, order: seq<Key>)
    requires Enumerates(order, bucket)
    ensures forall x :: x in DecodedInOrder(bucket, order) <==> Stored(bucket, x)
    ensures AllDecodable(bucket) ==> |DecodedInOrder(bucket, order)| == |bucket|
  {
    forall x ensures x in DecodedInOrder(bucket, order) <==> Stored(bucket, x) {
      DecodedMembers(bucket, order, x);
      if Stored(bucket, x) {
        var k :| k in bucket && bucket[k] == Encoded(x);
        var i :| 0 <= i < |order| && order[i] == k;
      }
    }
    if AllDecodable(bucket) {
      DecodedAll(bucket, order);
    }
  }

  /** bucket.ForEach with the decode-and-append callback of getDbPictures / getDbInstagrams. */
  method ForEachDecoded<T>(bucket: Bucket<T>) returns (list: seq<T>, ghost order: seq<Key>)
    ensures Enumerates(order, bucket)
    ensures list == DecodedInOrder(bucket, order)
  {
    list, order := [], [];
    var rest := bucket.Keys;
    while rest != {}
      invariant rest <= bucket.Keys && InBucket(bucket, order)
      invariant forall k :: k in bucket ==> (k in rest <==> k !in order)
      invariant forall i, j :: 0 <= i < j < |order| ==> order[i] != order[j]
      invariant |order| + |rest| == |bucket|
      invariant list == DecodedInOrder(bucket, order)
      decreases |rest|
    {
      var k :| k in rest;
      ghost var prev := order;
      order := order + [k];
      assert order[..|order| - 1] == prev;
      match Unmarshal(bucket[k]) {
        case Some(x) => list := list + [x];
        case None =>
      }
      rest := rest - {k};
    }
  }

  /** Each record's key is the binary form of its own id. */
  ghost predicate KeyedById<T>(bucket: Option<Bucket<T>>, idOf: T -> Uuid) {
    bucket.Some? ==> forall k :: k in bucket.value && bucket.value[k].Encoded? ==> k == KeyOf(idOf(bucket.value[k].record))
  }

  function PictureId(p: Picture): Uuid { p.id }
  function InstagramId(i: Instagram): Uuid { i.id }

  /** The database handle: the two buckets, each absent until its first insert. */
  class Store {
    var pictures: Option<Bucket<Picture>>
    var instagram: Option<Bucket<Instagram>>

    ghost predicate Valid()
      reads this
    {
      KeyedById(pictures, PictureId) && KeyedById(instagram, InstagramId)
    }

    constructor(pictures: Option<Bucket<Picture>>, instagram: Option<Bucket<Instagram>>)
      ensures this.pictures == pictures && this.instagram == instagram
    {
      this.pictures := pictures;
      this.instagram := instagram;
    }

    /** getDbPicture. */
    function GetDbPicture(id: Uuid): (r: Result<Picture, DbError>)
      reads this
      ensures r == Lookup(pictures, id)
      ensures Valid() && r.Ok? ==> r.value.id == id
    {
      Lookup(pictures, id)
    }

    /** getDbInstagram. */
    function GetDbInstagram(id: Uuid): (r: Result<Instagram, DbError>)
      reads this
      ensures r == Lookup(instagram, id)
      ensures Valid() && r.Ok? ==> r.value.id == id
    {
      Lookup(instagram, id)
    }

    /** insertNewPicture: create the bucket if missing, put p under its id; a failed commit changes nothing. */
    method InsertNewPicture(p: Picture, commitFails: bool) returns (err: Option<DbError>)
      modifies this
      ensures err == (if commitFails then Some(CommitFailed) else None)
      ensures pictures == if commitFails then old(pictures) else Some(BucketOrEmpty(old(pictures))[KeyOf(p.id) := Marshal(p)])
      ensures instagram == old(instagram)
      ensures err.None? ==> GetDbPicture(p.id) == Ok(p)
      ensures old(Valid()) ==> Valid()
    {
      if commitFails {
        return Some(CommitFailed);
      }
      pictures := Some(BucketOrEmpty(pictures)[KeyOf(p.id) := Marshal(p)]);
      return None;
    }

    /** insertNewInstagram. */
    method InsertNewInstagram(i: Instagram, commitFails: bool) returns (err: Option<DbError>)
      modifies this
      ensures err == (if commitFails then Some(CommitFailed) else None)
      ensures instagram == if commitFails then old(instagram) else Some(BucketOrEmpty(old(instagram))[KeyOf(i.id) := Marshal(i)])
      ensures pictures == old(pictures)
      ensures err.None? ==> GetDbInstagram(i.id) == Ok(i)
      ensures old(Valid()) ==> Valid()
    {
      if commitFails {
        return Some(CommitFailed);
      }
      instagram := Some(BucketOrEmpty(instagram)[KeyOf(i.id) := Marshal(i)]);
      return None;
    }

    /** updatePicture: overwrite the entry of p.Id; the bucket must exist (Go dereferences it unchecked). */
    method UpdatePicture(p: Picture, commitFails: bool) returns (err: Option<DbError>)
      requires pictures.Some?
      modifies this
      ensures err == (if commitFails then Some(CommitFailed) else None)
      ensures pictures == if commitFails then old(pictures) else Some(old(pictures.value)[KeyOf(p.id) := Marshal(p)])
      ensures instagram == old(instagram)
      ensures err.None? ==> GetDbPicture(p.id) == Ok(p)
      ensures old(Valid()) ==> Valid()
    {
      if commitFails {
        return Some(CommitFailed);
      }
      pictures := Some(pictures.value[KeyOf(p.id) := Marshal(p)]);
      return None;
    }

    /** updateInstagram. */
    method UpdateInstagram(i: Instagram, commitFails: bool) returns (err: Option<DbError>)
      requires instagram.Some?
      modifies this
      ensures err == (if commitFails then Some(CommitFailed) else None)
      ensures instagram == if commitFails then old(instagram) else Some(old(instagram.value)[KeyOf(i.id) := Marshal(i)])
      ensures pictures == old(pictures)
      ensures err.None? ==> GetDbInstagram(i.id) == Ok(i)
      ensures old(Valid()) ==> Valid()
    {
      if commitFails {
        return Some(CommitFailed);
      }
      instagram := Some(instagram.value[KeyOf(i.id) := Marshal(i)]);
      return None;
    }

    /** deleteDbPicture: remove the entry of id (a missing key is not an error); the bucket must exist. */
    method DeleteDbPicture(id: Uuid, commitFails: bool) returns (err: Option<DbError>)
      requires pictures.Some?
      modifies this
      ensures err == (if commitFails then Some(CommitFailed) else None)
      ensures pictures == if commitFails then old(pictures) else Some(old(pictures.value) - {KeyOf(id)})
      ensures instagram == old(instagram)
      ensures err.None? ==> GetDbPicture(id) == Err(NotFound)
      ensures old(Valid()) ==> Valid()
    {
      if commitFails {
        return Some(CommitFailed);
      }
      pictures := Some(pictures.value - {KeyOf(id)});
      return None;
    }

    /** deleteDbInstagram. */
    method DeleteDbInstagram(id: Uuid, commitFails: bool) returns (err: Option<DbError>)
      requires instagram.Some?
      modifies this
      ensures err == (if commitFails then Some(CommitFailed) else None)
      ensures instagram == if commitFails then old(instagram) else Some(old(instagram.value) - {KeyOf(id)})
      ensures pictures == old(pictures)
      ensures err.None? ==> GetDbInstagram(id) == Err(NotFound)
      ensures old(Valid()) ==> Valid()
    {
      if commitFails {
        return Some(CommitFailed);
      }
      instagram := Some(instagram.value - {KeyOf(id)});
      return None;
    }

    /**
     * getDbPictures: "can't open bucket" without the bucket; otherwise every record that decodes,
     * in the order of one enumeration of the keys, with corrupt documents silently skipped.
     */
    method GetDbPictures() returns (list: seq<Picture>, err: Option<DbError>, ghost order: seq<Key>)
      ensures err == (if pictures.None? then Some(CantOpenBucket) else None)
      ensures pictures.None? ==> list == []
      ensures pictures.Some? ==> Enumerates(order, pictures.value) && list == DecodedInOrder(pictures.value, order)
      ensures pictures.Some? ==> forall x :: x in list <==> Stored(pictures.value, x)
      ensures pictures.Some? && AllDecodable(pictures.value) ==> |list| == |pictures.value|
    {
      if pictures.None? {
        return [], Some(CantOpenBucket), [];
      }
      list, order := ForEachDecoded(pictures.value);
      ListedRecords(pictures.value, order);
      err := None;
    }

    /** getDbInstagrams. */
    method GetDbInstagrams() returns (list: seq<Instagram>, err: Option<DbError>, ghost order: seq<Key>)
      ensures err == (if instagram.None? then Some(CantOpenBucket) else None)
      ensures instagram.None? ==> list == []
      ensures instagram.Some? ==> Enumerates(order, instagram.value) && list == DecodedInOrder(instagram.value, order)
      ensures instagram.Some? ==> forall x :: x in list <==> Stored(instagram.value, x)
      ensures instagram.Some? && AllDecodable(instagram.value) ==> |list| == |instagram.value|
    {
      if instagram.None? {
        return [], Some(CantOpenBucket), [];
      }
      list, order := ForEachDecoded(instagram.value);
      ListedRecords(instagram.value, order);
      err := None;
    }
  }
}
