/**
 * pkg/server/upload.go: the response projection of records, and the ingestion of uploaded
 * pictures and linked Instagram posts into the store and the artifact directories.
 */
module ServerUpload {
  import opened Wrappers
  import opened GoImage
  import opened GoUuid
  import opened Models
  import opened FileSystem
  import opened ServerDatabase
  import opened ServerState
  import opened UploadPatterns

  const PictureKind := 1
  const InstagramKind := 2

  /** pictureResponse: what the API returns for a picture or a post; `kind` is its "type" field. */
  datatype PictureResponse = PictureResponse(
    id: string,
    disabled: bool,
    kind: int,
    title: string,
    text: string,
    origUrl: string,
    croppedUrl: string,
    thumbUrl: string,
    thumbCropUrl: string,
    width: int,
    height: int,
    useCrop: bool,
    topCrop: Rectangle,
    croppedBounds: Rectangle,
    created: Time,
    edited: Time)

  /** fromPicture. */
  function FromPicture(p: Picture): (r: PictureResponse)
    ensures r.kind == PictureKind && r.id == UuidString(p.id) && r.created == p.uploaded
  {
    PictureResponse(
      id := UuidString(p.id), disabled := p.disabled, kind := PictureKind,
      title := p.content.title, text := p.content.text,
      origUrl := p.originalUrl, croppedUrl := p.croppedUrl, thumbUrl := p.thumbnailUrl,
      thumbCropUrl := p.thumbCroppedUrl,
      width := p.originalBounds.Dx(), height := p.originalBounds.Dy(),
      useCrop := p.useCropped, topCrop := p.topCrop, croppedBounds := p.croppedBounds,
      created := p.uploaded, edited := ZeroTime)
  }

  /** fromInsta: a post is shown with its oEmbed type as title and its embed HTML as text. */
  function FromInsta(i: Instagram): (r: PictureResponse)
    ensures r.kind == InstagramKind && r.id == UuidString(i.id) && r.created == i.uploaded
  {
    PictureResponse(
      id := UuidString(i.id), disabled := i.disabled, kind := InstagramKind,
      title := i.data.kind, text := i.data.html,
      origUrl := "", croppedUrl := "", thumbUrl := i.thumbnailUrl, thumbCropUrl := "",
      width := 0, height := 0, useCrop := false, topCrop := ZR, croppedBounds := ZR,
      created := i.uploaded, edited := i.edited)
  }

  /**
   * A picture response reports the original's size whatever the crop, leaves Edited at the zero
   * time, and carries the record's content and flags.
   */
  lemma FromPictureFields(p: Picture, useCropped: bool, cb: Rectangle)
    ensures var r := FromPicture(p);
      r.width == p.originalBounds.Dx() && r.height == p.originalBounds.Dy() && r.edited == ZeroTime
      && r.title == p.content.title && r.text == p.content.text && r.disabled == p.disabled && r.useCrop == p.useCropped
    ensures FromPicture(p.(useCropped := useCropped, croppedBounds := cb)).width == FromPicture(p).width
    ensures FromPicture(p.(useCropped := useCropped, croppedBounds := cb)).height == FromPicture(p).height
  {
  }

  /** A post response carries the post's type and HTML, its thumbnail and times, and nothing of a picture. */
  lemma FromInstaFields(i: Instagram)
    ensures var r := FromInsta(i);
      r.title == i.data.kind && r.text == i.data.html && r.thumbUrl == i.thumbnailUrl
      && r.edited == i.edited && r.disabled == i.disabled
      && r.origUrl == "" && r.croppedUrl == "" && r.width == 0 && r.height == 0 && !r.useCrop
  {
  }

  /** Responses identify their record: one id per record, and pictures never look like posts. */
  lemma ResponsesIdentify(p: Picture, q: Picture, i: Instagram)
    ensures FromPicture(p).id == FromPicture(q).id ==> p.id == q.id
    ensures FromPicture(p) != FromInsta(i)
  {
    if FromPicture(p).id == FromPicture(q).id {
      UuidStringInjective(p.id, q.id);
    }
  }

  /** The file extension for a decoded format: "jpg" for jpeg/jpg in any case, "png" for everything else. */
  function ExtFor(format: string): (ext: string)
    ensures ext == "jpg" <==> IsJpegFormat(format)
    ensures ext == "png" <==> !IsJpegFormat(format)
  {
    if IsJpegFormat(format) then "jpg" else "png"
  }

  predicate IsExtension(ext: string) {
    ext == "jpg" || ext == "png"
  }

  function OrigName(ext: string): string { "orig." + ext }
  function ThumbName(ext: string): string { "thumb." + ext }

  /** File names built from an extension hold no '/', so they stay inside the record's directory. */
  lemma NamesArePlain(ext: string)
    requires IsExtension(ext)
    ensures forall i :: 0 <= i < |OrigName(ext)| ==> OrigName(ext)[i] != '/'
    ensures forall i :: 0 <= i < |ThumbName(ext)| ==> ThumbName(ext)[i] != '/'
    ensures Ext(OrigName(ext)) == "." + ext
  {
    ExtOfName("orig", ext);
    assert OrigName(ext) == "orig" + "." + ext;
  }

  /** helper's default uploader when the request carries no user. */
  const Anonymous := "anonymous"

  /** The record savePicture builds. */
  function NewPicture(id: Uuid, img: DecodedImage, topCrop: Rectangle, filename: string, now: Time,
                      title: string, text: string, hasUser: bool): Picture
  {
    var ext := ExtFor(img.format);
    Picture(
      id := id, content := Content(title, text),
      croppedBounds := ZR, croppedPath := "", croppedUrl := "",
      disabled := false, edited := ZeroTime,
      originalBounds := img.bounds, originalPath := OrigName(ext),
      originalUrl := PictureUrl(id, Base(OrigName(ext))),
      thumbnailPath := ThumbName(ext), thumbnailUrl := PictureUrl(id, Base(ThumbName(ext))),
      thumbCroppedPath := "", thumbCroppedUrl := "", topCrop := topCrop,
      uploaded := now, uploadedFilename := filename,
      uploader := if hasUser then "" else Anonymous,
      useCropped := false)
  }

  /** The URL of a picture file built from a plain name is /pictures/<id>/<name>, served from that file. */
  lemma PictureFileUrl(d: Dirs, id: Uuid, name: string)
    requires forall i :: 0 <= i < |name| ==> name[i] != '/'
    ensures PictureUrl(id, Base(name)) == "/pictures/" + UuidString(id) + "/" + name
    ensures ServedFile(d, PictureUrl(id, Base(name))) == Some(Join(PictureDirOf(d, id), name))
  {
    BasePlain(name);
    PictureUrlServes(d, id, name);
  }

  /** The same for the file of a post. */
  lemma InstaFileUrl(d: Dirs, id: Uuid, name: string)
    requires forall i :: 0 <= i < |name| ==> name[i] != '/'
    ensures InstaUrl(id, Base(name)) == "/instagram/" + UuidString(id) + "/" + name
    ensures ServedFile(d, InstaUrl(id, Base(name))) == Some(Join(InstaDirOf(d, id), name))
  {
    BasePlain(name);
    InstaUrlServes(d, id, name);
  }

  /**
   * A new picture's URLs are /pictures/<id>/orig.<ext> and /pictures/<id>/thumb.<ext>, and the file
   * server maps them to its stored files.
   */
  lemma NewPictureUrls(d: Dirs, id: Uuid, img: DecodedImage, topCrop: Rectangle, filename: string, now: Time,
                       title: string, text: string, hasUser: bool)
    ensures var p := NewPicture(id, img, topCrop, filename, now, title, text, hasUser);
      p.originalUrl == "/pictures/" + UuidString(id) + "/" + OrigName(ExtFor(img.format))
      && p.thumbnailUrl == "/pictures/" + UuidString(id) + "/" + ThumbName(ExtFor(img.format))
      && ServedFile(d, p.originalUrl) == Some(Join(PictureDirOf(d, id), p.originalPath))
      && ServedFile(d, p.thumbnailUrl) == Some(Join(PictureDirOf(d, id), p.thumbnailPath))
  {
    var ext := ExtFor(img.format);
    NamesArePlain(ext);
    PictureFileUrl(d, id, OrigName(ext));
    PictureFileUrl(d, id, ThumbName(ext));
  }

  /** A new picture is the uploaded one at its original size, uncropped, enabled and unedited. */
  lemma NewPictureFields(id: Uuid, img: DecodedImage, topCrop: Rectangle, filename: string, now: Time,
                         title: string, text: string, hasUser: bool)
    ensures var p := NewPicture(id, img, topCrop, filename, now, title, text, hasUser);
      p.id == id && !p.useCropped && !p.disabled && p.croppedPath == "" && p.thumbCroppedPath == ""
      && p.edited == ZeroTime && p.content == Content(title, text) && p.originalBounds == img.bounds
      && p.uploaded == now && p.uploadedFilename == filename && p.topCrop == topCrop
      && (p.uploader == Anonymous <==> !hasUser)
  {
  }

  /** The record saveInstagram builds; both time.Now readings are the one instant now. */
  function NewInstagram(id: Uuid, now: Time, url: string, thumb: DecodedImage, data: InstaData, hasUser: bool): Instagram {
    var ext := ExtFor(thumb.format);
    Instagram(
      id := id, edited := now, disabled := false, postUrl := url,
      thumbnailBounds := thumb.bounds, thumbnailPath := ThumbName(ext),
      thumbnailUrl := InstaUrl(id, Base(ThumbName(ext))),
      uploaded := now, uploader := if hasUser then "" else Anonymous, data := data)
  }

  /** A new post's thumbnail URL is /instagram/<id>/thumb.<ext>, served from its stored file. */
  lemma NewInstagramFields(d: Dirs, id: Uuid, now: Time, url: string, thumb: DecodedImage, data: InstaData, hasUser: bool)
    ensures var i := NewInstagram(id, now, url, thumb, data, hasUser);
      i.id == id && i.postUrl == url && !i.disabled && i.data == data && i.edited == now && i.uploaded == now
      && i.thumbnailUrl == "/instagram/" + UuidString(id) + "/" + ThumbName(ExtFor(thumb.format))
      && ServedFile(d, i.thumbnailUrl) == Some(Join(InstaDirOf(d, id), i.thumbnailPath))
      && (i.uploader == Anonymous <==> !hasUser)
  {
    var ext := ExtFor(thumb.format);
    NamesArePlain(ext);
    InstaFileUrl(d, id, ThumbName(ext));
  }

  /** os.Mkdir of the record directory, then os.OpenFile with O_CREATE of the original and the thumbnail in it. */
  method MakePictureDir(fs: Files, dir: string, fileName: string, thumbName: string) returns (ok: bool)
    modifies fs
    ensures ok <==> dir !in old(fs.dirs)
    ensures fs.dirs == if ok then old(fs.dirs)[dir := {fileName, thumbName}] else old(fs.dirs)
  {
    ok := fs.Mkdir(dir);
    if !ok {
      return;
    }
    var created := fs.Create(dir, fileName);
    created := fs.Create(dir, thumbName);
    assert fs.dirs[dir] == {fileName, thumbName};
  }

  /** os.Mkdir of the post directory, then os.OpenFile with O_CREATE of the thumbnail in it. */
  method MakeInstaDir(fs: Files, dir: string, thumbName: string) returns (ok: bool)
    modifies fs
    ensures ok <==> dir !in old(fs.dirs)
    ensures fs.dirs == if ok then old(fs.dirs)[dir := {thumbName}] else old(fs.dirs)
  {
    ok := fs.Mkdir(dir);
    if !ok {
      return;
    }
    var created := fs.Create(dir, thumbName);
    assert fs.dirs[dir] == {thumbName};
  }

  /**
   * The tail of savePicture: insertNewPicture of the new, still uncropped record, and when it fails os.RemoveAll of the directory of the
   * original, which takes the listing back to fs0, the one before the directory was made. The error of
   * RemoveAll is ignored: when it fails (removeFails) the directory stays and the commit error is returned.
   */
  method InsertPictureOrRollback(db: Store, fs: Files, d: Dirs, picture: Picture, commitFails: bool, removeFails: bool,
                                 ghost fs0: map<string, set<string>>) returns (r: Result<Picture, string>)
    requires forall i :: 0 <= i < |picture.originalPath| ==> picture.originalPath[i] != '/'
    requires !picture.useCropped
    requires PictureDirOf(d, picture.id) !in fs0
    requires fs.dirs == fs0[PictureDirOf(d, picture.id) := {picture.originalPath, picture.thumbnailPath}]
    modifies db, fs
    ensures r == if commitFails then Err(CommitFailed.Message()) else Ok(picture)
    ensures db.pictures == if commitFails then old(db.pictures) else Some(BucketOrEmpty(old(db.pictures))[KeyOf(picture.id) := Marshal(picture)])
    ensures fs.dirs == if commitFails && !removeFails then fs0 else old(fs.dirs)
    ensures db.instagram == old(db.instagram)
    ensures old(db.Valid()) && PicturesHaveFiles(old(db.pictures), fs0, d) && InstasHaveFiles(old(db.instagram), fs0, d) ==>
      Consistent(db, fs, d)
  {
    ghost var wasConsistent := db.Valid() && PicturesHaveFiles(db.pictures, fs0, d) && InstasHaveFiles(db.instagram, fs0, d);
    if wasConsistent {
      HaveFilesGrow(db.pictures, db.instagram, fs0, fs.dirs, d);
      PutPictureHasFiles(BucketOrEmpty(db.pictures), fs.dirs, d, picture);
    }
    var err := db.InsertNewPicture(picture, commitFails);
    if err.Some? {
      var dir := PictureDirOf(d, picture.id);
      DirOfJoin(dir, picture.originalPath);
      var _ := fs.RemoveAll(Dir(Join(dir, picture.originalPath)), removeFails);
      RemoveUndoesAdd(fs0, dir, {picture.originalPath, picture.thumbnailPath});
      return Err(err.value.Message());
    }
    return Ok(picture);
  }

  /** The tail of saveInstagram: insertNewInstagram, and when it fails os.RemoveAll of the thumbnail's directory, whose error is ignored. */
  method InsertInstaOrRollback(db: Store, fs: Files, d: Dirs, post: Instagram, commitFails: bool, removeFails: bool,
                               ghost fs0: map<string, set<string>>) returns (r: Result<Instagram, string>)
    requires forall i :: 0 <= i < |post.thumbnailPath| ==> post.thumbnailPath[i] != '/'
    requires InstaDirOf(d, post.id) !in fs0
    requires fs.dirs == fs0[InstaDirOf(d, post.id) := {post.thumbnailPath}]
    modifies db, fs
    ensures r == if commitFails then Err(CommitFailed.Message()) else Ok(post)
    ensures db.instagram == if commitFails then old(db.instagram) else Some(BucketOrEmpty(old(db.instagram))[KeyOf(post.id) := Marshal(post)])
    ensures fs.dirs == if commitFails && !removeFails then fs0 else old(fs.dirs)
    ensures db.pictures == old(db.pictures)
    ensures old(db.Valid()) && PicturesHaveFiles(old(db.pictures), fs0, d) && InstasHaveFiles(old(db.instagram), fs0, d) ==>
      Consistent(db, fs, d)
  {
    ghost var wasConsistent := db.Valid() && PicturesHaveFiles(db.pictures, fs0, d) && InstasHaveFiles(db.instagram, fs0, d);
    if wasConsistent {
      HaveFilesGrow(db.pictures, db.instagram, fs0, fs.dirs, d);
      PutInstaHasFiles(BucketOrEmpty(db.instagram), fs.dirs, d, post);
    }
    var err := db.InsertNewInstagram(post, commitFails);
    if err.Some? {
      var dir := InstaDirOf(d, post.id);
      DirOfJoin(dir, post.thumbnailPath);
      var _ := fs.RemoveAll(Dir(Join(dir, post.thumbnailPath)), removeFails);
      RemoveUndoesAdd(fs0, dir, {post.thumbnailPath});
      return Err(err.value.Message());
    }
    return Ok(post);
  }

  /**
   * What the outside world decides during savePicture: the new id, the clock, smartcrop's box, encoder
   * and commit failures, the user, and whether the RemoveAll of a rollback fails.
   */
  datatype PictureEffects = PictureEffects(
    id: Uuid, now: Time, topCrop: Rectangle,
    origEncodeFails: bool, thumbEncodeFails: bool, hasUser: bool, commitFails: bool, rollbackFails: bool)

  /**
   * savePicture. The directory is created before anything is stored; a failed encode leaves it
   * behind, a failed insert removes it again unless that removal fails too.
   */
  method SavePicture(db: Store, fs: Files, d: Dirs, decoded: Option<DecodedImage>, filename: string,
                     title: string, text: string, fx: PictureEffects) returns (r: Result<Picture, string>)
    modifies db, fs
    ensures var dir := PictureDirOf(d, fx.id);
      r.Ok? <==> decoded.Some? && dir !in old(fs.dirs) && !fx.origEncodeFails && !fx.thumbEncodeFails && !fx.commitFails
    ensures decoded.None? || PictureDirOf(d, fx.id) in old(fs.dirs) ==> fs.dirs == old(fs.dirs) && db.pictures == old(db.pictures)
    ensures decoded.Some? && r.Ok? ==>
      var ext := ExtFor(decoded.value.format);
      r.value == NewPicture(fx.id, decoded.value, fx.topCrop, filename, fx.now, title, text, fx.hasUser)
      && db.pictures == Some(BucketOrEmpty(old(db.pictures))[KeyOf(fx.id) := Marshal(r.value)])
      && fs.dirs == old(fs.dirs)[PictureDirOf(d, fx.id) := {OrigName(ext), ThumbName(ext)}]
    ensures decoded.Some? && PictureDirOf(d, fx.id) !in old(fs.dirs) && (fx.origEncodeFails || fx.thumbEncodeFails) ==>
      var ext := ExtFor(decoded.value.format);
      fs.dirs == old(fs.dirs)[PictureDirOf(d, fx.id) := {OrigName(ext), ThumbName(ext)}] && db.pictures == old(db.pictures)
    ensures decoded.Some? && PictureDirOf(d, fx.id) !in old(fs.dirs) && !fx.origEncodeFails && !fx.thumbEncodeFails && fx.commitFails ==>
      var ext := ExtFor(decoded.value.format);
      fs.dirs == (if fx.rollbackFails then old(fs.dirs)[PictureDirOf(d, fx.id) := {OrigName(ext), ThumbName(ext)}] else old(fs.dirs))
      && db.pictures == old(db.pictures)
    ensures db.instagram == old(db.instagram)
    ensures old(Consistent(db, fs, d)) ==> Consistent(db, fs, d)
  {
    if decoded.None? {
      return Err("image: unknown format");
    }
    var img := decoded.value;
    var ext := ExtFor(img.format);
    var fileName := OrigName(ext);
    var thumbName := ThumbName(ext);
    var dir := PictureDirOf(d, fx.id);
    ghost var fs0 := fs.dirs;
    var ok := MakePictureDir(fs, dir, fileName, thumbName);
    if !ok {
      return Err("mkdir " + dir + ": file exists");
    }
    assert Grows(fs0, fs.dirs);
    HaveFilesGrow(db.pictures, db.instagram, fs0, fs.dirs, d);
    if fx.origEncodeFails || fx.thumbEncodeFails {
      return Err("image: encoding failed");
    }
    var picture := NewPicture(fx.id, img, fx.topCrop, filename, fx.now, title, text, fx.hasUser);
    NamesArePlain(ext);
    r := InsertPictureOrRollback(db, fs, d, picture, fx.commitFails, fx.rollbackFails, fs0);
  }

  /** A file part of the multipart form: its name, its declared MIME type and what image.Decode makes of it. */
  datatype UploadedFile = UploadedFile(filename: string, mime: string, decoded: Option<DecodedImage>)

  const ErrNotPlainText := "only plain text allowed in title/text"

  /**
   * uploadPicture. Every rejected request is a 400 that changes nothing; title and text are both
   * taken from the form field "text".
   */
  method UploadPicture(db: Store, fs: Files, d: Dirs, contentType: string, formParsed: bool,
                       file: Option<UploadedFile>, textField: string, fx: PictureEffects)
    returns (r: HttpResult<PictureResponse>)
    modifies db, fs
    ensures r.Fail? ==> r.status == StatusBadRequest || r.status == StatusInternalServerError
    ensures (r.Fail? && r.status == StatusBadRequest) <==>
      (!IsMultipart(contentType) || !formParsed || file.None? || !IsImageMime(file.value.mime) || !IsPlainText(textField))
    ensures r.Fail? && r.status == StatusBadRequest ==>
      fs.dirs == old(fs.dirs) && db.pictures == old(db.pictures) && db.instagram == old(db.instagram)
    ensures r.Reply? <==>
      IsMultipart(contentType) && formParsed && file.Some? && IsImageMime(file.value.mime) && IsPlainText(textField)
      && file.value.decoded.Some? && PictureDirOf(d, fx.id) !in old(fs.dirs)
      && !fx.origEncodeFails && !fx.thumbEncodeFails && !fx.commitFails
    ensures r.Reply? ==>
      var img := file.value.decoded.value;
      var ext := ExtFor(img.format);
      var p := NewPicture(fx.id, img, fx.topCrop, file.value.filename, fx.now, textField, textField, fx.hasUser);
      r.body == FromPicture(p)
      && db.pictures == Some(BucketOrEmpty(old(db.pictures))[KeyOf(fx.id) := Marshal(p)])
      && fs.dirs == old(fs.dirs)[PictureDirOf(d, fx.id) := {OrigName(ext), ThumbName(ext)}]
    ensures r.Fail? && r.status == StatusInternalServerError ==>
      file.Some? && db.pictures == old(db.pictures)
      && fs.dirs == if file.value.decoded.Some? && PictureDirOf(d, fx.id) !in old(fs.dirs) && (fx.origEncodeFails || fx.thumbEncodeFails || fx.rollbackFails)
                    then old(fs.dirs)[PictureDirOf(d, fx.id) := {OrigName(ExtFor(file.value.decoded.value.format)), ThumbName(ExtFor(file.value.decoded.value.format))}]
                    else old(fs.dirs)
    ensures r.Reply? ==> db.GetDbPicture(fx.id).Ok? && r.body == FromPicture(db.GetDbPicture(fx.id).value)
    ensures r.Reply? ==> r.body.title == textField && r.body.text == textField
    ensures db.instagram == old(db.instagram)
    ensures old(Consistent(db, fs, d)) ==> Consistent(db, fs, d)
  {
    if !IsMultipart(contentType) {
      return Fail(StatusBadRequest, "request Content-Type isn't multipart/form-data");
    }
    if !formParsed {
      return Fail(StatusBadRequest, "multipart: malformed form");
    }
    if file.None? {
      return Fail(StatusBadRequest, "can't find 'uploadFile'");
    }
    var mime := file.value.mime;
    if !IsImageMime(mime) {
      return Fail(StatusBadRequest, "unsupported file, mime type was: " + mime);
    }
    var title := textField;
    var text := textField;
    if !IsPlainText(title) || !IsPlainText(text) {
      return Fail(StatusBadRequest, ErrNotPlainText);
    }
    var saved := SavePicture(db, fs, d, file.value.decoded, file.value.filename, title, text, fx);
    if saved.Err? {
      return Fail(StatusInternalServerError, saved.error);
    }
    return Reply(FromPicture(saved.value));
  }

  /** The graph API request saveInstagram sends for a post URL. */
  function OEmbedRequest(url: string): string {
    "https://graph.facebook.com/v8.0" + "/instagram_oembed?url=" + url
  }

  /** The oEmbed answer with the escaped '&' in its thumbnail URL rewritten. */
  function FixThumbnailUrl(data: InstaData): (r: InstaData)
    ensures r == data.(thumbnailUrl := r.thumbnailUrl)
    ensures forall i :: !EscapedAt(r.thumbnailUrl, i)
  {
    ReplaceAmpComplete(data.thumbnailUrl);
    if data.thumbnailUrl != "" then data.(thumbnailUrl := ReplaceAmp(data.thumbnailUrl)) else data
  }

  /**
   * What the two network fetches of saveInstagram yield for a URL: the oEmbed data and the decoded
   * thumbnail. It exists so that the contracts of SaveInstagram and UploadInstagram, which cannot call
   * the method FetchPost, can name the outcome of the fetches.
   */
  function Fetched(url: string, oembed: string -> Option<InstaData>, fetch: string -> Option<DecodedImage>)
    : Option<(InstaData, DecodedImage)>
  {
    match oembed(OEmbedRequest(url))
    case None => None
    case Some(raw) =>
      var data := FixThumbnailUrl(raw);
      match fetch(data.thumbnailUrl)
      case None => None
      case Some(thumb) => Some((data, thumb))
  }

  /** The fetching steps of saveInstagram: ask for the oEmbed data, rewrite its thumbnail URL, fetch and decode the thumbnail. */
  method FetchPost(url: string, oembed: string -> Option<InstaData>, fetch: string -> Option<DecodedImage>)
    returns (r: Option<(InstaData, DecodedImage)>)
    ensures r == Fetched(url, oembed, fetch)
  {
    var answer := oembed(OEmbedRequest(url));
    if answer.None? {
      return None;
    }
    var data := answer.value;
    if data.thumbnailUrl != "" {
      data := data.(thumbnailUrl := ReplaceAmp(data.thumbnailUrl));
    }
    assert data == FixThumbnailUrl(answer.value);
    var thumb := fetch(data.thumbnailUrl);
    if thumb.None? {
      return None;
    }
    return Some((data, thumb.value));
  }

  /** What the outside world decides during saveInstagram, including whether the RemoveAll of a rollback fails. */
  datatype InstaEffects = InstaEffects(id: Uuid, now: Time, encodeFails: bool, hasUser: bool, commitFails: bool, rollbackFails: bool)

  /**
   * saveInstagram: fetch the oEmbed data and the thumbnail, store the thumbnail in a fresh
   * directory and the record in the store; a failed encode leaves the directory, a failed insert removes it
   * unless that removal fails too.
   */
  method SaveInstagram(db: Store, fs: Files, d: Dirs, url: string, oembed: string -> Option<InstaData>,
                       fetch: string -> Option<DecodedImage>, fx: InstaEffects) returns (r: Result<Instagram, string>)
    modifies db, fs
    ensures var got := Fetched(url, oembed, fetch);
      r.Ok? <==> got.Some? && InstaDirOf(d, fx.id) !in old(fs.dirs) && !fx.encodeFails && !fx.commitFails
    ensures var got := Fetched(url, oembed, fetch);
      got.None? || InstaDirOf(d, fx.id) in old(fs.dirs) ==> fs.dirs == old(fs.dirs) && db.instagram == old(db.instagram)
    ensures var got := Fetched(url, oembed, fetch);
      r.Ok? && got.Some? ==>
      r.value == NewInstagram(fx.id, fx.now, url, got.value.1, got.value.0, fx.hasUser)
      && db.instagram == Some(BucketOrEmpty(old(db.instagram))[KeyOf(fx.id) := Marshal(r.value)])
      && fs.dirs == old(fs.dirs)[InstaDirOf(d, fx.id) := {ThumbName(ExtFor(got.value.1.format))}]
    ensures var got := Fetched(url, oembed, fetch);
      got.Some? && InstaDirOf(d, fx.id) !in old(fs.dirs) && fx.encodeFails ==>
      fs.dirs == old(fs.dirs)[InstaDirOf(d, fx.id) := {ThumbName(ExtFor(got.value.1.format))}] && db.instagram == old(db.instagram)
    ensures var got := Fetched(url, oembed, fetch);
      got.Some? && InstaDirOf(d, fx.id) !in old(fs.dirs) && !fx.encodeFails && fx.commitFails ==>
      fs.dirs == (if fx.rollbackFails then old(fs.dirs)[InstaDirOf(d, fx.id) := {ThumbName(ExtFor(got.value.1.format))}] else old(fs.dirs))
      && db.instagram == old(db.instagram)
    ensures db.pictures == old(db.pictures)
    ensures old(Consistent(db, fs, d)) ==> Consistent(db, fs, d)
  {
    var fetched := FetchPost(url, oembed, fetch);
    if fetched.None? {
      return Err("oEmbed data or thumbnail could not be fetched");
    }
    var (d1, thumb) := fetched.value;
    var ext := ExtFor(thumb.format);
    var thumbName := ThumbName(ext);
    var dir := InstaDirOf(d, fx.id);
    ghost var fs0 := fs.dirs;
    var ok := MakeInstaDir(fs, dir, thumbName);
    if !ok {
      return Err("mkdir " + dir + ": file exists");
    }
    assert Grows(fs0, fs.dirs);
    HaveFilesGrow(db.pictures, db.instagram, fs0, fs.dirs, d);
    if fx.encodeFails {
      return Err("image: encoding failed");
    }
    var post := NewInstagram(fx.id, fx.now, url, thumb, d1, fx.hasUser);
    NamesArePlain(ext);
    r := InsertInstaOrRollback(db, fs, d, post, fx.commitFails, fx.rollbackFails, fs0);
  }

  /** instaUrlRegex.SubexpNames(): the whole match, then the url group. */
  const SubexpNames: seq<string> := ["", "url"]

  /** instaUrlRegex.FindStringSubmatch: no match, or the whole string and the url group. */
  function FindStringSubmatch(s: string): (m: seq<string>)
    ensures |m| == 0 || (|m| == 2 && m[0] == s)
  {
    match InstaMatch(s)
    case None => []
    case Some(c) => [s, c]
  }

  /** The loop of uploadInstagram over the group names: take the url group when there is one. */
  method NormalizeInstaUrl(url: string) returns (r: string)
    ensures r == Normalized(url)
  {
    var m := FindStringSubmatch(url);
    r := url;
    for i := 0 to |SubexpNames|
      invariant r == if i > 1 && |m| > 1 then m[1] else url
    {
      if i != 0 && SubexpNames[i] == "url" && |m| > i {
        r := m[i];
      }
    }
  }

  /**
   * uploadInstagram. A form that does not parse or has no url is a 400 that changes nothing; every
   * failure of saveInstagram is a 500, since saveInstagram never returns errInvalidPost.
   */
  method UploadInstagram(db: Store, fs: Files, d: Dirs, formParsed: bool, urlField: string,
                         oembed: string -> Option<InstaData>, fetch: string -> Option<DecodedImage>, fx: InstaEffects)
    returns (r: HttpResult<PictureResponse>)
    modifies db, fs
    ensures r.Fail? ==> r.status == StatusBadRequest || r.status == StatusInternalServerError
    ensures (r.Fail? && r.status == StatusBadRequest) <==> (!formParsed || urlField == "")
    ensures r.Fail? && r.status == StatusBadRequest ==>
      fs.dirs == old(fs.dirs) && db.pictures == old(db.pictures) && db.instagram == old(db.instagram)
    ensures var got := Fetched(Normalized(urlField), oembed, fetch);
      r.Reply? <==>
        formParsed && urlField != "" && got.Some? && InstaDirOf(d, fx.id) !in old(fs.dirs) && !fx.encodeFails && !fx.commitFails
    ensures var got := Fetched(Normalized(urlField), oembed, fetch);
      r.Reply? ==>
        var post := NewInstagram(fx.id, fx.now, Normalized(urlField), got.value.1, got.value.0, fx.hasUser);
        r.body == FromInsta(post)
        && db.instagram == Some(BucketOrEmpty(old(db.instagram))[KeyOf(fx.id) := Marshal(post)])
        && fs.dirs == old(fs.dirs)[InstaDirOf(d, fx.id) := {ThumbName(ExtFor(got.value.1.format))}]
    ensures var got := Fetched(Normalized(urlField), oembed, fetch);
      r.Fail? && r.status == StatusInternalServerError ==>
        db.instagram == old(db.instagram)
        && fs.dirs == if got.Some? && InstaDirOf(d, fx.id) !in old(fs.dirs) && (fx.encodeFails || fx.rollbackFails)
                      then old(fs.dirs)[InstaDirOf(d, fx.id) := {ThumbName(ExtFor(got.value.1.format))}]
                      else old(fs.dirs)
    ensures r.Reply? ==>
      db.GetDbInstagram(fx.id).Ok? && r.body == FromInsta(db.GetDbInstagram(fx.id).value)
      && db.GetDbInstagram(fx.id).value.postUrl == Normalized(urlField)
    ensures db.pictures == old(db.pictures)
    ensures old(Consistent(db, fs, d)) ==> Consistent(db, fs, d)
  {
    if !formParsed {
      return Fail(StatusBadRequest, "multipart: malformed form");
    }
    if urlField == "" {
      return Fail(StatusBadRequest, "missing url");
    }
    var url := NormalizeInstaUrl(urlField);
    var saved := SaveInstagram(db, fs, d, url, oembed, fetch, fx);
    if saved.Err? {
      return Fail(StatusInternalServerError, saved.error);
    }
    return Reply(FromInsta(saved.value));
  }
}
