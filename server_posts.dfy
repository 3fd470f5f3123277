/**
 * pkg/server/posts.go: the public feed. getList shows the enabled pictures and posts in random
 * order; getPosts lists every record, newest first.
 */
module ServerPosts {
  import opened Wrappers
  import opened Models
  import opened ServerDatabase
  import opened Sorting
  import opened ServerUpload

  /** item: one entry of the feed. */
  datatype Item = Item(kind: int, url: string, title: string, text: string, width: int, height: int)

  /** The feed entry of a picture: the cropped image when the crop is in use, else the original. */
  function PictureItem(p: Picture): (x: Item)
    ensures x.kind == PictureKind && x.title == p.content.title && x.text == p.content.text
  {
    if p.useCropped then Item(PictureKind, p.croppedUrl, p.content.title, p.content.text, p.croppedBounds.Dx(), p.croppedBounds.Dy())
    else Item(PictureKind, p.originalUrl, p.content.title, p.content.text, p.originalBounds.Dx(), p.originalBounds.Dy())
  }

  /** The feed entry of a post: its oEmbed type and HTML, with no URL and no size. */
  function InstaItem(i: Instagram): (x: Item)
    ensures x.kind == InstagramKind
  {
    Item(InstagramKind, "", i.data.kind, i.data.html, 0, 0)
  }

  /** Which picture is shown, at which size: both directions of the crop choice. */
  lemma PictureItemChoice(p: Picture)
    ensures p.useCropped ==>
      PictureItem(p).url == p.croppedUrl && PictureItem(p).width == p.croppedBounds.Dx() && PictureItem(p).height == p.croppedBounds.Dy()
    ensures !p.useCropped ==>
      PictureItem(p).url == p.originalUrl && PictureItem(p).width == p.originalBounds.Dx() && PictureItem(p).height == p.originalBounds.Dy()
  {
  }

  /** A post entry carries its type and HTML, an empty URL and size zero, and never looks like a picture entry. */
  lemma InstaItemFields(i: Instagram, p: Picture)
    ensures InstaItem(i) == Item(InstagramKind, "", i.data.kind, i.data.html, 0, 0)
    ensures InstaItem(i) != PictureItem(p)
  {
  }

  /** The records of s that are not switched off, in order. */
  function Enabled<T>(s: seq<T>, off: T -> bool): (r: seq<T>)
    ensures |r| <= |s|
    ensures forall x :: x in r ==> x in s && !off(x)
  {
    if s == [] then []
    else Enabled(s[..|s| - 1], off) + (if off(s[|s| - 1]) then [] else [s[|s| - 1]])
  }

  /** Enabled keeps every enabled record as often as it occurs and drops every disabled one. */
  lemma {:induction false} EnabledCount<T>(s: seq<T>, off: T -> bool, x: T)
    ensures multiset(Enabled(s, off))[x] == if off(x) then 0 else multiset(s)[x]
  {
    if s != [] {
      var front, last := s[..|s| - 1], s[|s| - 1];
      EnabledCount(front, off, x);
      assert s == front + [last];
      assert multiset(s) == multiset(front) + multiset{last};
      assert Enabled(s, off) == Enabled(front, off) + (if off(last) then [] else [last]);
    }
  }

  function PictureOff(p: Picture): bool { p.disabled }
  function InstaOff(i: Instagram): bool { i.disabled }

  /** The list getList assembles, before the shuffle: enabled pictures, then enabled posts. */
  function FeedItems(pics: seq<Picture>, insts: seq<Instagram>): seq<Item> {
    Map(Enabled(pics, PictureOff), PictureItem) + Map(Enabled(insts, InstaOff), InstaItem)
  }

  /** An item of the projected enabled records is exactly the projection of one enabled record. */
  lemma MapEnabledMembers<T, B>(s: seq<T>, off: T -> bool, f: T -> B, x: B)
    ensures x in Map(Enabled(s, off), f) <==> exists y :: y in s && !off(y) && f(y) == x
  {
    var e := Enabled(s, off);
    if x in Map(e, f) {
      var k :| 0 <= k < |e| && Map(e, f)[k] == x;
      assert e[k] in e;
    }
    if exists y :: y in s && !off(y) && f(y) == x {
      var y :| y in s && !off(y) && f(y) == x;
      EnabledCount(s, off, y);
      assert y in multiset(e);
      var k :| 0 <= k < |e| && e[k] == y;
      assert Map(e, f)[k] == x;
    }
  }

  /** One entry per enabled picture and per enabled post, and nothing else. */
  lemma FeedMembers(pics: seq<Picture>, insts: seq<Instagram>, x: Item)
    ensures x in FeedItems(pics, insts) <==>
      (exists p :: p in pics && !p.disabled && PictureItem(p) == x) || (exists i :: i in insts && !i.disabled && InstaItem(i) == x)
    ensures |FeedItems(pics, insts)| == |Enabled(pics, PictureOff)| + |Enabled(insts, InstaOff)|
  {
    MapEnabledMembers(pics, PictureOff, PictureItem, x);
    MapEnabledMembers(insts, InstaOff, InstaItem, x);
  }

  lemma MapSnoc<A, B>(s: seq<A>, x: A, f: A -> B)
    ensures Map(s + [x], f) == Map(s, f) + [f(x)]
  {
  }

  /** One loop of getList: skip the records switched off, append the item of each of the others. */
  method AppendEnabled<T>(list: seq<Item>, s: seq<T>, off: T -> bool, f: T -> Item) returns (r: seq<Item>)
    ensures r == list + Map(Enabled(s, off), f)
  {
    r := list;
    for k := 0 to |s|
      invariant r == list + Map(Enabled(s[..k], off), f)
    {
      assert s[..k + 1][..k] == s[..k];
      var x := s[k];
      if off(x) {
        continue;
      }
      MapSnoc(Enabled(s[..k], off), x, f);
      r := r + [f(x)];
    }
    assert s[..|s|] == s;
  }

  /** The two loops of getList: enabled pictures first, then enabled posts. */
  method AssembleList(pics: seq<Picture>, insts: seq<Instagram>) returns (list: seq<Item>)
    ensures list == FeedItems(pics, insts)
  {
    list := AppendEnabled([], pics, PictureOff, PictureItem);
    list := AppendEnabled(list, insts, InstaOff, InstaItem);
  }

  /** The records a listing yields: the decoded ones of the bucket, none when it is missing. */
  ghost predicate Listed<T(!new)>(bucket: Option<Bucket<T>>, s: seq<T>) {
    (bucket.None? ==> s == []) && (bucket.Some? ==> forall x :: x in s <==> Stored(bucket.value, x))
  }

  /**
   * getList: fetch both lists (a missing bucket only yields nothing), assemble, answer 204 when the
   * feed is empty and the shuffled feed otherwise; draw stands for the random generator.
   */
  method GetList(db: Store, draw: nat -> nat)
    returns (r: HttpResult<seq<Item>>, pics: seq<Picture>, insts: seq<Instagram>, ghost picOrder: seq<Key>, ghost instOrder: seq<Key>)
    ensures Listed(db.pictures, pics) && Listed(db.instagram, insts)
    ensures db.pictures.Some? ==> Enumerates(picOrder, db.pictures.value) && pics == DecodedInOrder(db.pictures.value, picOrder)
    ensures db.instagram.Some? ==> Enumerates(instOrder, db.instagram.value) && insts == DecodedInOrder(db.instagram.value, instOrder)
    ensures r.Fail? <==> FeedItems(pics, insts) == []
    ensures r.Fail? ==> r == Fail(StatusNoContent, "unable to fetch posts")
    ensures r.Reply? ==> multiset(r.body) == multiset(FeedItems(pics, insts))
  {
    var err1, err2;
    pics, err1, picOrder := db.GetDbPictures();
    insts, err2, instOrder := db.GetDbInstagrams();
    var list := AssembleList(pics, insts);
    if |list| == 0 {
      return Fail(StatusNoContent, "unable to fetch posts"), pics, insts, picOrder, instOrder;
    }
    var a := new Item[|list|](k requires 0 <= k < |list| => list[k]);
    assert a[..] == list;
    Shuffle(a, draw);
    return Reply(a[..]), pics, insts, picOrder, instOrder;
  }

  function CreatedOf(r: PictureResponse): int { r.created }

  /**
   * getPosts: a 404 when both fetches fail or both lists are empty; otherwise every picture and every
   * post, disabled ones included, as responses sorted newest first.
   */
  method GetPosts(db: Store)
    returns (r: HttpResult<seq<PictureResponse>>, pics: seq<Picture>, insts: seq<Instagram>, ghost picOrder: seq<Key>, ghost instOrder: seq<Key>)
    ensures Listed(db.pictures, pics) && Listed(db.instagram, insts)
    ensures db.pictures.Some? ==> Enumerates(picOrder, db.pictures.value) && pics == DecodedInOrder(db.pictures.value, picOrder)
    ensures db.instagram.Some? ==> Enumerates(instOrder, db.instagram.value) && insts == DecodedInOrder(db.instagram.value, instOrder)
    ensures db.pictures.None? && db.instagram.None? ==> r == Fail(StatusNotFound, "")
    ensures r.Fail? <==> pics == [] && insts == []
    ensures r.Fail? && (db.pictures.Some? || db.instagram.Some?) ==> r == Fail(StatusNotFound, "no posts found in database")
    ensures r.Reply? ==>
      |r.body| == |pics| + |insts| && NewestFirst(r.body, CreatedOf)
      && multiset(r.body) == multiset(Map(pics, FromPicture) + Map(insts, FromInsta))
  {
    var err1, err2;
    pics, err1, picOrder := db.GetDbPictures();
    insts, err2, instOrder := db.GetDbInstagrams();
    if err1.Some? && err2.Some? {
      return Fail(StatusNotFound, ""), pics, insts, picOrder, instOrder;
    }
    if |pics| == 0 && |insts| == 0 {
      return Fail(StatusNotFound, "no posts found in database"), pics, insts, picOrder, instOrder;
    }
    var fromPics := Project(pics, FromPicture);
    var fromInsts := Project(insts, FromInsta);
    var list := fromPics + fromInsts;
    var a := new PictureResponse[|list|](k requires 0 <= k < |list| => list[k]);
    assert a[..] == list;
    SortNewestFirst(a, CreatedOf);
    return Reply(a[..]), pics, insts, picOrder, instOrder;
  }
}
