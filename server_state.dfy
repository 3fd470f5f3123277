/**
 * pkg/server/server.go: the server's global state — the store, the data directory with its
 * "pictures" and "instagram" sub-directories, and the file servers that map URLs to files there.
 */
module ServerState {
  import opened Wrappers
  import opened GoUuid
  import opened Models
  import opened FileSystem
  import opened ServerDatabase

  /** The data directory; Run derives both artifact directories from it. */
  datatype Dirs = Dirs(dataDir: string) {
    function PictureDir(): string { Join(dataDir, "pictures") }
    function InstaPostDir(): string { Join(dataDir, "instagram") }
  }

  /** The artifact directory of one picture: path.Join(pictureDir, id.String()). */
  function PictureDirOf(d: Dirs, id: Uuid): (dir: string)
    ensures |dir| == |d.dataDir| + 46
  {
    Join(d.PictureDir(), UuidString(id))
  }

  /** The artifact directory of one Instagram post: path.Join(instaPostDir, id.String()). */
  function InstaDirOf(d: Dirs, id: Uuid): (dir: string)
    ensures |dir| == |d.dataDir| + 47
  {
    Join(d.InstaPostDir(), UuidString(id))
  }

  /** Records never share an artifact directory: one per id, and pictures apart from posts. */
  lemma RecordDirsDistinct(d: Dirs, a: Uuid, b: Uuid)
    ensures PictureDirOf(d, a) == PictureDirOf(d, b) ==> a == b
    ensures InstaDirOf(d, a) == InstaDirOf(d, b) ==> a == b
    ensures PictureDirOf(d, a) != InstaDirOf(d, b)
  {
    if PictureDirOf(d, a) == PictureDirOf(d, b) {
      JoinInjective(d.PictureDir(), UuidString(a), UuidString(b));
      UuidStringInjective(a, b);
    }
    if InstaDirOf(d, a) == InstaDirOf(d, b) {
      JoinInjective(d.InstaPostDir(), UuidString(a), UuidString(b));
      UuidStringInjective(a, b);
    }
  }

  const PicturesPrefix := "/pictures/"
  const InstagramPrefix := "/instagram/"

  /** The public URL of a picture file: /pictures/<id>/<name>. */
  function PictureUrl(id: Uuid, name: string): string {
    PicturesPrefix + UuidString(id) + "/" + name
  }

  /** The public URL of an Instagram thumbnail: /instagram/<id>/<name>. */
  function InstaUrl(id: Uuid, name: string): string {
    InstagramPrefix + UuidString(id) + "/" + name
  }

  /** The file the router of Run serves for a URL: StripPrefix, then FileServer on the matching directory. */
  function ServedFile(d: Dirs, url: string): (r: Option<string>)
    ensures r.Some? ==> (PicturesPrefix <= url || InstagramPrefix <= url)
  {
    if PicturesPrefix <= url then Some(Join(d.PictureDir(), url[|PicturesPrefix|..]))
    else if InstagramPrefix <= url then Some(Join(d.InstaPostDir(), url[|InstagramPrefix|..]))
    else None
  }

  /** What ServedFile does with /pictures/<u>/<name>, for any directory name u. */
  lemma PictureUrlServesAny(d: Dirs, u: string, name: string)
    ensures ServedFile(d, PicturesPrefix + u + "/" + name) == Some(Join(Join(d.PictureDir(), u), name))
  {
    var url := PicturesPrefix + u + "/" + name;
    var rest := u + "/" + name;
    assert url == PicturesPrefix + rest;
    assert url[|PicturesPrefix|..] == rest;
    assert Join(Join(d.PictureDir(), u), name) == Join(d.PictureDir(), rest);
  }

  /** What ServedFile does with /instagram/<u>/<name>, for any directory name u. */
  lemma InstaUrlServesAny(d: Dirs, u: string, name: string)
    ensures ServedFile(d, InstagramPrefix + u + "/" + name) == Some(Join(Join(d.InstaPostDir(), u), name))
  {
    var url := InstagramPrefix + u + "/" + name;
    assert !(PicturesPrefix <= url) by { assert url[1] != PicturesPrefix[1]; }
    var rest := u + "/" + name;
    assert url == InstagramPrefix + rest;
    assert url[|InstagramPrefix|..] == rest;
    assert Join(Join(d.InstaPostDir(), u), name) == Join(d.InstaPostDir(), rest);
  }

  /** A picture URL names the file of that name in the picture's artifact directory. */
  lemma PictureUrlServes(d: Dirs, id: Uuid, name: string)
    ensures ServedFile(d, PictureUrl(id, name)) == Some(Join(PictureDirOf(d, id), name))
  {
    PictureUrlServesAny(d, UuidString(id), name);
  }

  /** An Instagram URL names the file of that name in the post's artifact directory. */
  lemma InstaUrlServes(d: Dirs, id: Uuid, name: string)
    ensures ServedFile(d, InstaUrl(id, name)) == Some(Join(InstaDirOf(d, id), name))
  {
    InstaUrlServesAny(d, UuidString(id), name);
  }

  /**
   * The original and the thumbnail of p exist in its artifact directory, and so do the crop and its
   * thumbnail while the crop is in use.
   */
  ghost predicate PictureFilesPresent(fs: map<string, set<string>>, d: Dirs, p: Picture) {
    var dir := PictureDirOf(d, p.id);
    dir in fs && p.originalPath in fs[dir] && p.thumbnailPath in fs[dir]
    && (p.useCropped ==> Base(p.croppedPath) in fs[dir] && Base(p.thumbCroppedPath) in fs[dir])
  }

  /** The thumbnail of i exists in its artifact directory. */
  ghost predicate InstaFilesPresent(fs: map<string, set<string>>, d: Dirs, i: Instagram) {
    var dir := InstaDirOf(d, i.id);
    dir in fs && i.thumbnailPath in fs[dir]
  }

  ghost predicate PicturesHaveFiles(b: Option<Bucket<Picture>>, fs: map<string, set<string>>, d: Dirs) {
    b.Some? ==> forall k :: k in b.value && b.value[k].Encoded? ==> PictureFilesPresent(fs, d, b.value[k].record)
  }

  ghost predicate InstasHaveFiles(b: Option<Bucket<Instagram>>, fs: map<string, set<string>>, d: Dirs) {
    b.Some? ==> forall k :: k in b.value && b.value[k].Encoded? ==> InstaFilesPresent(fs, d, b.value[k].record)
  }

  /**
   * The store and the artifact directories agree: keys are record ids and every stored record's
   * files exist. Directories without a record (left behind by a failed encode) are allowed.
   */
  ghost predicate Consistent(db: Store, fs: Files, d: Dirs)
    reads db, fs
  {
    db.Valid() && PicturesHaveFiles(db.pictures, fs.dirs, d) && InstasHaveFiles(db.instagram, fs.dirs, d)
  }

  /** fs2 keeps every directory and file of fs1. */
  ghost predicate Grows(fs1: map<string, set<string>>, fs2: map<string, set<string>>) {
    forall dir :: dir in fs1 ==> dir in fs2 && fs1[dir] <= fs2[dir]
  }

  /** Creating directories and files keeps every record's files. */
  lemma HaveFilesGrow(pics: Option<Bucket<Picture>>, insts: Option<Bucket<Instagram>>,
                      fs1: map<string, set<string>>, fs2: map<string, set<string>>, d: Dirs)
    requires Grows(fs1, fs2)
    ensures PicturesHaveFiles(pics, fs1, d) ==> PicturesHaveFiles(pics, fs2, d)
    ensures InstasHaveFiles(insts, fs1, d) ==> InstasHaveFiles(insts, fs2, d)
  {
  }

  /** Putting a record whose files exist keeps every record's files. */
  lemma PutPictureHasFiles(b: Bucket<Picture>, fs: map<string, set<string>>, d: Dirs, p: Picture)
    requires PicturesHaveFiles(Some(b), fs, d) && PictureFilesPresent(fs, d, p)
    ensures PicturesHaveFiles(Some(b[KeyOf(p.id) := Marshal(p)]), fs, d)
  {
  }

  lemma PutInstaHasFiles(b: Bucket<Instagram>, fs: map<string, set<string>>, d: Dirs, i: Instagram)
    requires InstasHaveFiles(Some(b), fs, d) && InstaFilesPresent(fs, d, i)
    ensures InstasHaveFiles(Some(b[KeyOf(i.id) := Marshal(i)]), fs, d)
  {
  }

  /** Deleting the record of id and then its directory keeps the files of every other record. */
  lemma {:induction false} RemovePictureKeepsOthers(pics: Bucket<Picture>, insts: Option<Bucket<Instagram>>,
                                                   fs: map<string, set<string>>, d: Dirs, id: Uuid)
    requires KeyedById(Some(pics), PictureId)
    requires PicturesHaveFiles(Some(pics), fs, d) && InstasHaveFiles(insts, fs, d)
    ensures PicturesHaveFiles(Some(pics - {KeyOf(id)}), fs - {PictureDirOf(d, id)}, d)
    ensures InstasHaveFiles(insts, fs - {PictureDirOf(d, id)}, d)
  {
    var fs2 := fs - {PictureDirOf(d, id)};
    var rest := pics - {KeyOf(id)};
    forall k | k in rest && rest[k].Encoded?
      ensures PictureFilesPresent(fs2, d, rest[k].record)
    {
      var p := rest[k].record;
      assert PictureFilesPresent(fs, d, p);
      RecordDirsDistinct(d, p.id, id);
    }
    if insts.Some? {
      forall k | k in insts.value && insts.value[k].Encoded?
        ensures InstaFilesPresent(fs2, d, insts.value[k].record)
      {
        var i := insts.value[k].record;
        assert InstaFilesPresent(fs, d, i);
        RecordDirsDistinct(d, id, i.id);
      }
    }
  }

  /** Deleting the post of id and then its directory keeps the files of every other record. */
  lemma {:induction false} RemoveInstaKeepsOthers(pics: Option<Bucket<Picture>>, insts: Bucket<Instagram>,
                                                 fs: map<string, set<string>>, d: Dirs, id: Uuid)
    requires KeyedById(Some(insts), InstagramId)
    requires PicturesHaveFiles(pics, fs, d) && InstasHaveFiles(Some(insts), fs, d)
    ensures InstasHaveFiles(Some(insts - {KeyOf(id)}), fs - {InstaDirOf(d, id)}, d)
    ensures PicturesHaveFiles(pics, fs - {InstaDirOf(d, id)}, d)
  {
    var fs2 := fs - {InstaDirOf(d, id)};
    var rest := insts - {KeyOf(id)};
    forall k | k in rest && rest[k].Encoded?
      ensures InstaFilesPresent(fs2, d, rest[k].record)
    {
      var i := rest[k].record;
      assert InstaFilesPresent(fs, d, i);
      RecordDirsDistinct(d, i.id, id);
    }
    if pics.Some? {
      forall k | k in pics.value && pics.value[k].Encoded?
        ensures PictureFilesPresent(fs2, d, pics.value[k].record)
      {
        var p := pics.value[k].record;
        assert PictureFilesPresent(fs, d, p);
        RecordDirsDistinct(d, p.id, id);
      }
    }
  }
}
