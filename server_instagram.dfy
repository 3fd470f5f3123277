/**
 * pkg/server/instagram.go: the handlers that read, disable, delete and list linked Instagram posts.
 */
module ServerInstagram {
  import opened Wrappers
  import opened GoUuid
  import opened Models
  import opened FileSystem
  import opened ServerDatabase
  import opened ServerState
  import opened Sorting
  import opened ServerUpload

  /** getInstagram after parsing: a failed lookup is a 404 carrying the lookup's error and no record. */
  function GetInstagram(db: Store, id: Uuid): (r: HttpResult<PictureResponse>)
    reads db
    ensures r.Fail? <==> db.GetDbInstagram(id).Err?
    ensures r.Fail? ==> r == Fail(StatusNotFound, db.GetDbInstagram(id).error.Message())
    ensures r.Reply? ==> r.body == FromInsta(db.GetDbInstagram(id).value)
    ensures r.Reply? && db.Valid() ==> r.body.id == UuidString(id) && r.body.kind == InstagramKind
  {
    match db.GetDbInstagram(id)
    case Err(e) => Fail(StatusNotFound, e.Message())
    case Ok(i) => Reply(FromInsta(i))
  }

  function UploadedOf(i: Instagram): int { i.uploaded }

  /**
   * getInstagrams: a missing bucket is a 404 with an empty message, a bucket without a decodable
   * post a 404 (whose message speaks of pictures); otherwise the listed posts sorted newest upload
   * first, projected.
   */
  method GetInstagrams(db: Store) returns (r: HttpResult<seq<PictureResponse>>, ghost sorted: seq<Instagram>, ghost order: seq<Key>)
    ensures db.instagram.None? ==> r == Fail(StatusNotFound, "")
    ensures db.instagram.Some? ==>
      (r.Fail? <==> forall x :: !Stored(db.instagram.value, x))
      && (r.Fail? ==> r == Fail(StatusNotFound, "no pictures found in database"))
    ensures r.Reply? ==>
      db.instagram.Some? && Enumerates(order, db.instagram.value)
      && r.body == Map(sorted, FromInsta) && NewestFirst(sorted, UploadedOf)
      && multiset(sorted) == multiset(DecodedInOrder(db.instagram.value, order))
      && forall x :: x in sorted <==> Stored(db.instagram.value, x)
  {
    var posts, err;
    posts, err, order := db.GetDbInstagrams();
    sorted := [];
    if err.Some? {
      return Fail(StatusNotFound, ""), sorted, order;
    }
    if |posts| == 0 {
      assert forall x :: !Stored(db.instagram.value, x) by {
        forall x ensures !Stored(db.instagram.value, x) {
          assert x !in posts;
        }
      }
      return Fail(StatusNotFound, "no pictures found in database"), sorted, order;
    }
    assert posts[0] in posts;
    var a := new Instagram[|posts|](i requires 0 <= i < |posts| => posts[i]);
    assert a[..] == posts;
    SortNewestFirst(a, UploadedOf);
    sorted := a[..];
    assert forall x :: x in sorted <==> x in multiset(posts);
    var list := Project(a[..], FromInsta);
    return Reply(list), sorted, order;
  }

  /** A stored post's thumbnail is present in any consistent state. */
  lemma StoredHasFiles(db: Store, fs: Files, d: Dirs, id: Uuid)
    requires Consistent(db, fs, d) && db.GetDbInstagram(id).Ok?
    ensures InstaFilesPresent(fs.dirs, d, db.GetDbInstagram(id).value)
  {
    assert db.instagram.value[KeyOf(id)].Encoded?;
  }

  /**
   * disableInstagram after parsing: only Disabled changes on the stored post, so asking for the value
   * it already has leaves a consistent store exactly as it was.
   */
  method DisableInstagram(db: Store, fs: Files, d: Dirs, id: Uuid, disable: bool, commitFails: bool)
    returns (r: HttpResult<PictureResponse>)
    modifies db
    ensures var got := old(db.GetDbInstagram(id));
      got.Err? ==> r == Fail(StatusInternalServerError, got.error.Message()) && db.instagram == old(db.instagram)
    ensures var got := old(db.GetDbInstagram(id));
      got.Ok? ==>
        var p := got.value.(disabled := disable);
        if commitFails then r == Fail(StatusInternalServerError, CommitFailed.Message()) && db.instagram == old(db.instagram)
        else r == Reply(FromInsta(p)) && db.instagram == Some(old(db.instagram).value[KeyOf(got.value.id) := Marshal(p)])
    ensures var got := old(db.GetDbInstagram(id));
      old(db.Valid()) && got.Ok? && got.value.disabled == disable ==> db.instagram == old(db.instagram)
    ensures db.pictures == old(db.pictures)
    ensures old(Consistent(db, fs, d)) ==> Consistent(db, fs, d)
  {
    var got := db.GetDbInstagram(id);
    if got.Err? {
      return Fail(StatusInternalServerError, got.error.Message());
    }
    var post := got.value;
    ghost var wasConsistent := Consistent(db, fs, d);
    if wasConsistent {
      StoredHasFiles(db, fs, d, id);
    }
    ghost var b0 := db.instagram.value;
    post := post.(disabled := disable);
    if db.Valid() && got.value.disabled == disable {
      assert post == got.value;
      assert b0[KeyOf(post.id) := Marshal(post)] == b0;
    }
    var err := db.UpdateInstagram(post, commitFails);
    if err.Some? {
      return Fail(StatusInternalServerError, err.value.Message());
    }
    if wasConsistent {
      PutInstaHasFiles(b0, fs.dirs, d, post);
    }
    return Reply(FromInsta(post));
  }

  /**
   * deleteInstagram after parsing: the post must exist; then its entry goes, then the instagram/<id>
   * directory. A successful delete answers with an empty body.
   */
  method DeleteInstagram(db: Store, fs: Files, d: Dirs, id: Uuid, commitFails: bool, removeFails: bool) returns (r: HttpResult<()>)
    modifies db, fs
    ensures var got := old(db.GetDbInstagram(id));
      got.Err? ==>
        r == Fail(StatusInternalServerError, got.error.Message()) && db.instagram == old(db.instagram) && fs.dirs == old(fs.dirs)
    ensures var got := old(db.GetDbInstagram(id));
      got.Ok? && commitFails ==>
        r == Fail(StatusInternalServerError, CommitFailed.Message()) && db.instagram == old(db.instagram) && fs.dirs == old(fs.dirs)
    ensures var got := old(db.GetDbInstagram(id));
      got.Ok? && !commitFails ==>
        db.instagram == Some(old(db.instagram).value - {KeyOf(got.value.id)})
        && db.GetDbInstagram(got.value.id) == Err(NotFound)
        && if removeFails then r == Fail(StatusInternalServerError, RemoveFailed) && fs.dirs == old(fs.dirs)
           else r == Reply(()) && fs.dirs == old(fs.dirs) - {InstaDirOf(d, got.value.id)}
    ensures db.pictures == old(db.pictures)
    ensures old(Consistent(db, fs, d)) ==> Consistent(db, fs, d)
  {
    var got := db.GetDbInstagram(id);
    if got.Err? {
      return Fail(StatusInternalServerError, got.error.Message());
    }
    var post := got.value;
    ghost var wasConsistent := Consistent(db, fs, d);
    var err := db.DeleteDbInstagram(post.id, commitFails);
    if err.Some? {
      return Fail(StatusInternalServerError, err.value.Message());
    }
    var p := InstaDirOf(d, post.id);
    var removed := fs.RemoveAll(p, removeFails);
    if !removed {
      return Fail(StatusInternalServerError, RemoveFailed);
    }
    if wasConsistent {
      RemoveInstaKeepsOthers(db.pictures, old(db.instagram).value, old(fs.dirs), d, post.id);
    }
    return Reply(());
  }
}
