/**
 * pkg/server/picture.go: the handlers that read, re-crop, edit, disable, delete and list picture
 * records. Each one fetches the record, changes some fields and writes it back.
 */
module ServerPicture {
  import opened Wrappers
  import opened GoImage
  import opened GoUuid
  import opened Models
  import opened FileSystem
  import opened ServerDatabase
  import opened ServerState
  import opened Sorting
  import opened UploadPatterns
  import opened ServerUpload

  /** min. */
  function Min(x1: int, x2: int): (m: int)
    ensures m <= x1 && m <= x2
    ensures m == x1 || m == x2
  {
    if x1 < x2 then x1 else x2
  }

  /** The crop request of the body: the origin and size the client asks for. */
  datatype Crop = Crop(x: int, y: int, width: int, height: int)

  /** The request with width and height capped to the original's dimensions. */
  function CapCrop(c: Crop, oW: int, oH: int): (r: Crop)
    ensures r.x == c.x && r.y == c.y
    ensures r.width <= oW && r.height <= oH
    ensures r.width <= c.width && r.height <= c.height
    ensures (r.width == c.width || r.width == oW) && (r.height == c.height || r.height == oH)
  {
    c.(width := Min(c.width, oW), height := Min(c.height, oH))
  }

  /** Cropping is switched off for an empty crop or one covering the whole original. */
  predicate CropOff(c: Crop, oW: int, oH: int) {
    c.width == 0 || c.height == 0 || (c.width >= oW && c.height >= oH)
  }

  /**
   * One axis of the origin clamp: a negative origin moves to 0, and the far edge moves along by the
   * same amount only if it then still lies within max.
   */
  function ShiftAxis(lo: int, hi: int, max: int): (int, int) {
    if lo < 0 then
      var t := lo * -1;
      if hi + t <= max then (0, hi + t) else (0, hi)
    else (lo, hi)
  }

  /**
   * What the clamp does to an axis of origin lo and size size: the origin ends up non-negative; a
   * non-negative origin and its far edge lo + size pass unchanged, with no bound on the far edge;
   * a shifted negative origin keeps the size; an unshifted one loses |lo| of it.
   */
  lemma ShiftAxisSpec(lo: int, size: int, max: int)
    ensures var (a, b) := ShiftAxis(lo, lo + size, max);
      a >= 0
      && (lo >= 0 ==> a == lo && b == lo + size)
      && (lo < 0 && size <= max ==> a == 0 && b == size && b - a == size)
      && (lo < 0 && size > max ==> a == 0 && b == lo + size && b - a == size - (-lo))
  {
  }

  /** The crop rectangle cropPicture stores: capped, then clamped on each axis against the decoded image's far corner. */
  function CroppedBox(c: Crop, orig: Rectangle, img: Rectangle): (r: Rectangle)
    ensures r.WellFormed()
  {
    var capped := CapCrop(c, orig.Dx(), orig.Dy());
    var xs := ShiftAxis(capped.x, capped.x + capped.width, img.max.x);
    var ys := ShiftAxis(capped.y, capped.y + capped.height, img.max.y);
    Rect(xs.0, ys.0, xs.1, ys.1)
  }

  /** With a non-negative origin and size the box is the capped request itself, and its origin is never negative. */
  lemma CroppedBoxPlain(c: Crop, orig: Rectangle, img: Rectangle)
    requires orig.WellFormed()
    requires c.x >= 0 && c.y >= 0 && c.width >= 0 && c.height >= 0
    ensures var capped := CapCrop(c, orig.Dx(), orig.Dy());
      CroppedBox(c, orig, img) == Rectangle(Point(c.x, c.y), Point(c.x + capped.width, c.y + capped.height))
  {
    var capped := CapCrop(c, orig.Dx(), orig.Dy());
    RectOrdered(c.x, c.y, c.x + capped.width, c.y + capped.height);
  }

  /** The box is not kept inside the image: a far edge past the image's corner is stored as asked. */
  lemma CroppedBoxUnbounded()
    ensures var r := Rectangle(Point(0, 0), Point(100, 100));
      CroppedBox(Crop(50, 0, 100, 10), r, r).max.x == 150
  {
    var r := Rectangle(Point(0, 0), Point(100, 100));
    RectOrdered(50, 0, 150, 10);
  }

  /** The names cropPicture writes: crop<ext> and thumb_crop<ext> in the picture's directory. */
  function CropName(ext: string): string { "crop" + ext }
  function ThumbCropName(ext: string): string { "thumb_crop" + ext }

  /** The record cropPicture writes back for pic, fetched under id, when the decoded original has bounds img. */
  function CropOutcome(d: Dirs, id: Uuid, pic: Picture, body: Crop, img: Rectangle, now: Time): Picture {
    var capped := CapCrop(body, pic.originalBounds.Dx(), pic.originalBounds.Dy());
    if CropOff(capped, pic.originalBounds.Dx(), pic.originalBounds.Dy()) then
      pic.(useCropped := false, edited := now)
    else
      var ext := Ext(pic.originalPath);
      var dir := PictureDirOf(d, id);
      var cropName := Join(dir, CropName(ext));
      var thumbCropName := Join(dir, ThumbCropName(ext));
      pic.(croppedBounds := CroppedBox(body, pic.originalBounds, img),
           croppedUrl := PictureUrl(pic.id, Base(cropName)), croppedPath := cropName,
           thumbCroppedUrl := PictureUrl(pic.id, Base(thumbCropName)), thumbCroppedPath := thumbCropName,
           useCropped := true, edited := now)
  }

  /**
   * The disable path: only UseCropped (now false) and Edited change; the old cropped bounds, paths
   * and URLs stay. The crop is in use afterwards exactly when the capped request is not switched off.
   */
  lemma CropDisabled(d: Dirs, id: Uuid, pic: Picture, body: Crop, img: Rectangle, now: Time)
    ensures var oW, oH := pic.originalBounds.Dx(), pic.originalBounds.Dy();
      CropOutcome(d, id, pic, body, img, now).useCropped <==> !CropOff(CapCrop(body, oW, oH), oW, oH)
    ensures var oW, oH := pic.originalBounds.Dx(), pic.originalBounds.Dy();
            var r := CropOutcome(d, id, pic, body, img, now);
      CropOff(CapCrop(body, oW, oH), oW, oH) ==>
        r.edited == now && r.(useCropped := pic.useCropped, edited := pic.edited) == pic
  {
  }

  /** Every name built from an extension of a path holds no '/'. */
  lemma CropNamesPlain(ext: string)
    requires forall i :: 0 <= i < |ext| ==> ext[i] != '/'
    ensures forall i :: 0 <= i < |CropName(ext)| ==> CropName(ext)[i] != '/'
    ensures forall i :: 0 <= i < |ThumbCropName(ext)| ==> ThumbCropName(ext)[i] != '/'
  {
    forall i | 0 <= i < |CropName(ext)| ensures CropName(ext)[i] != '/' {
      if i >= 4 { assert CropName(ext)[i] == ext[i - 4]; }
    }
    forall i | 0 <= i < |ThumbCropName(ext)| ensures ThumbCropName(ext)[i] != '/' {
      if i >= 10 { assert ThumbCropName(ext)[i] == ext[i - 10]; }
    }
  }

  /**
   * The crop path: the stored bounds are the clamped box, the crop is in use, the URLs are
   * /pictures/<id>/crop<ext> and /pictures/<id>/thumb_crop<ext> with <ext> the original's extension,
   * and the files sit in the directory of the requested id.
   */
  lemma CropApplied(d: Dirs, id: Uuid, pic: Picture, body: Crop, img: Rectangle, now: Time)
    requires var oW, oH := pic.originalBounds.Dx(), pic.originalBounds.Dy();
      !CropOff(CapCrop(body, oW, oH), oW, oH)
    ensures var r := CropOutcome(d, id, pic, body, img, now);
            var ext := Ext(pic.originalPath);
      r.croppedBounds == CroppedBox(body, pic.originalBounds, img) && r.useCropped && r.edited == now
      && r.croppedUrl == "/pictures/" + UuidString(pic.id) + "/" + CropName(ext)
      && r.thumbCroppedUrl == "/pictures/" + UuidString(pic.id) + "/" + ThumbCropName(ext)
      && r.croppedPath == Join(PictureDirOf(d, id), CropName(ext))
      && r.thumbCroppedPath == Join(PictureDirOf(d, id), ThumbCropName(ext))
  {
    var ext := Ext(pic.originalPath);
    var dir := PictureDirOf(d, id);
    CropNamesPlain(ext);
    BaseOfJoin(dir, CropName(ext));
    BaseOfJoin(dir, ThumbCropName(ext));
  }

  /** On either path nothing but the crop fields and Edited changes; in particular id, content and the original's files stay. */
  lemma CropKeepsRest(d: Dirs, id: Uuid, pic: Picture, body: Crop, img: Rectangle, now: Time)
    ensures var r := CropOutcome(d, id, pic, body, img, now);
      r.id == pic.id && r.originalPath == pic.originalPath && r.thumbnailPath == pic.thumbnailPath
    ensures var r := CropOutcome(d, id, pic, body, img, now);
      r.(croppedBounds := pic.croppedBounds, croppedUrl := pic.croppedUrl, croppedPath := pic.croppedPath,
         thumbCroppedUrl := pic.thumbCroppedUrl, thumbCroppedPath := pic.thumbCroppedPath,
         useCropped := pic.useCropped, edited := pic.edited) == pic
  {
  }

  /** The listing after dir gains names, when it exists. */
  function WithFiles(fs: map<string, set<string>>, dir: string, names: set<string>): map<string, set<string>> {
    if dir in fs then fs[dir := fs[dir] + names] else fs
  }

  lemma WithFilesGrows(fs: map<string, set<string>>, dir: string, names: set<string>)
    ensures Grows(fs, WithFiles(fs, dir, names))
  {
  }

  /**
   * The record cropPicture writes back finds all its files in the listing after the crop files are
   * opened: the original's as before, and the crop's while the crop is in use.
   */
  lemma CropKeepsFiles(fs: map<string, set<string>>, d: Dirs, id: Uuid, pic: Picture, body: Crop, img: Rectangle, now: Time)
    requires pic.id == id && PictureFilesPresent(fs, d, pic)
    ensures var oW, oH := pic.originalBounds.Dx(), pic.originalBounds.Dy();
            var ext := Ext(pic.originalPath);
            var after := if CropOff(CapCrop(body, oW, oH), oW, oH) then fs
                         else WithFiles(fs, PictureDirOf(d, id), {CropName(ext), ThumbCropName(ext)});
      PictureFilesPresent(after, d, CropOutcome(d, id, pic, body, img, now))
  {
    var oW, oH := pic.originalBounds.Dx(), pic.originalBounds.Dy();
    CropKeepsRest(d, id, pic, body, img, now);
    if !CropOff(CapCrop(body, oW, oH), oW, oH) {
      var ext := Ext(pic.originalPath);
      var dir := PictureDirOf(d, id);
      CropApplied(d, id, pic, body, img, now);
      CropNamesPlain(ext);
      BaseOfJoin(dir, CropName(ext));
      BaseOfJoin(dir, ThumbCropName(ext));
    }
  }

  /** A stored picture's artifacts are present in any consistent state. */
  lemma StoredHasFiles(db: Store, fs: Files, d: Dirs, id: Uuid)
    requires Consistent(db, fs, d) && db.GetDbPicture(id).Ok?
    ensures PictureFilesPresent(fs.dirs, d, db.GetDbPicture(id).value)
  {
    assert db.pictures.value[KeyOf(id)].Encoded?;
  }

  /**
   * The shared tail of the handlers: updatePicture with the changed record, a 500 on a failed commit,
   * the record's response otherwise.
   */
  method WriteBack(db: Store, fs: Files, d: Dirs, pic: Picture, commitFails: bool) returns (r: HttpResult<PictureResponse>)
    requires db.pictures.Some?
    modifies db
    ensures r == if commitFails then Fail(StatusInternalServerError, CommitFailed.Message()) else Reply(FromPicture(pic))
    ensures db.pictures == if commitFails then old(db.pictures) else Some(old(db.pictures).value[KeyOf(pic.id) := Marshal(pic)])
    ensures db.instagram == old(db.instagram)
    ensures old(Consistent(db, fs, d)) && PictureFilesPresent(fs.dirs, d, pic) ==> Consistent(db, fs, d)
  {
    ghost var wasConsistent := Consistent(db, fs, d) && PictureFilesPresent(fs.dirs, d, pic);
    var err := db.UpdatePicture(pic, commitFails);
    if err.Some? {
      return Fail(StatusInternalServerError, err.value.Message());
    }
    if wasConsistent {
      PutPictureHasFiles(old(db.pictures).value, fs.dirs, d, pic);
    }
    return Reply(FromPicture(pic));
  }

  /** The origin clamp of cropPicture, reassigning the corners step by step. */
  method ClampOrigin(crop: Crop, img: Rectangle) returns (x0: int, y0: int, x1: int, y1: int)
    ensures x0 == ShiftAxis(crop.x, crop.x + crop.width, img.max.x).0 && x1 == ShiftAxis(crop.x, crop.x + crop.width, img.max.x).1
    ensures y0 == ShiftAxis(crop.y, crop.y + crop.height, img.max.y).0 && y1 == ShiftAxis(crop.y, crop.y + crop.height, img.max.y).1
  {
    x0 := crop.x;
    y0 := crop.y;
    x1 := crop.x + crop.width;
    y1 := crop.y + crop.height;
    if x0 < 0 {
      var t := x0 * -1;
      x0 := 0;
      if x1 + t <= img.max.x {
        x1 := x1 + t;
      }
    }
    if y0 < 0 {
      var t := y0 * -1;
      y0 := 0;
      if y1 + t <= img.max.y {
        y1 := y1 + t;
      }
    }
  }

  /** The clamp followed by image.Rect of the corners. */
  method CropBounds(body: Crop, crop: Crop, orig: Rectangle, img: Rectangle) returns (cb: Rectangle)
    requires crop == CapCrop(body, orig.Dx(), orig.Dy())
    ensures cb == CroppedBox(body, orig, img)
  {
    var x0, y0, x1, y1 := ClampOrigin(crop, img);
    cb := Rect(x0, y0, x1, y1);
  }

  /** os.OpenFile with O_CREATE of the crop and of its thumbnail in dir; a missing dir makes both fail. */
  method CreateCropFiles(fs: Files, dir: string, fileName: string, thumbName: string)
    modifies fs
    ensures fs.dirs == WithFiles(old(fs.dirs), dir, {fileName, thumbName})
  {
    var createdCrop := fs.Create(dir, fileName);
    var createdThumb := fs.Create(dir, thumbName);
    if dir in old(fs.dirs) {
      assert fs.dirs[dir] == old(fs.dirs)[dir] + {fileName, thumbName};
    }
  }

  /**
   * The crop path of cropPicture: name the files after the original's extension, clamp the box,
   * open both files in the requested id's directory, and set the crop fields.
   */
  method CropRecord(fs: Files, d: Dirs, id: Uuid, pic: Picture, body: Crop, crop: Crop, img: Rectangle, now: Time)
    returns (q: Picture)
    requires crop == CapCrop(body, pic.originalBounds.Dx(), pic.originalBounds.Dy())
    requires !CropOff(crop, pic.originalBounds.Dx(), pic.originalBounds.Dy())
    modifies fs
    ensures q == CropOutcome(d, id, pic, body, img, now)
    ensures var ext := Ext(pic.originalPath);
      fs.dirs == WithFiles(old(fs.dirs), PictureDirOf(d, id), {CropName(ext), ThumbCropName(ext)})
  {
    var dir := PictureDirOf(d, id);
    var ext := Ext(pic.originalPath);
    var fileName := CropName(ext);
    var thumbName := ThumbCropName(ext);
    var cropName := Join(dir, fileName);
    var thumbCropName := Join(dir, thumbName);

    var cb := CropBounds(body, crop, pic.originalBounds, img);

    CreateCropFiles(fs, dir, fileName, thumbName);

    q := pic.(croppedBounds := cb, croppedUrl := PictureUrl(pic.id, Base(cropName)), croppedPath := cropName,
              thumbCroppedUrl := PictureUrl(pic.id, Base(thumbCropName)), thumbCroppedPath := thumbCropName,
              useCropped := true, edited := now);
  }

  /**
   * cropPicture after the id and body have been parsed. img is the bounds of the original as decoded
   * from its file; the crop and thumbnail files are opened in the picture's directory whether or not
   * the update then commits.
   */
  method CropPicture(db: Store, fs: Files, d: Dirs, id: Uuid, body: Crop, img: Rectangle, now: Time, commitFails: bool)
    returns (r: HttpResult<PictureResponse>)
    modifies db, fs
    ensures var got := old(db.GetDbPicture(id));
      got.Err? ==>
        r == Fail(StatusInternalServerError, got.error.Message()) && db.pictures == old(db.pictures) && fs.dirs == old(fs.dirs)
    ensures var got := old(db.GetDbPicture(id));
      got.Ok? ==>
        var p := CropOutcome(d, id, got.value, body, img, now);
        r == (if commitFails then Fail(StatusInternalServerError, CommitFailed.Message()) else Reply(FromPicture(p)))
        && db.pictures == (if commitFails then old(db.pictures) else Some(old(db.pictures).value[KeyOf(got.value.id) := Marshal(p)]))
    ensures var got := old(db.GetDbPicture(id));
      got.Ok? ==>
        var oW, oH := got.value.originalBounds.Dx(), got.value.originalBounds.Dy();
        var ext := Ext(got.value.originalPath);
        fs.dirs == if CropOff(CapCrop(body, oW, oH), oW, oH) then old(fs.dirs)
                   else WithFiles(old(fs.dirs), PictureDirOf(d, id), {CropName(ext), ThumbCropName(ext)})
    ensures db.instagram == old(db.instagram)
    ensures old(Consistent(db, fs, d)) ==> Consistent(db, fs, d)
  {
    var got := db.GetDbPicture(id);
    if got.Err? {
      return Fail(StatusInternalServerError, got.error.Message());
    }
    var pic := got.value;
    ghost var fs0 := fs.dirs;
    ghost var wasConsistent := Consistent(db, fs, d);
    if wasConsistent {
      StoredHasFiles(db, fs, d, id);
    }
    var p := CropDecide(fs, d, id, pic, body, img, now);
    assert Grows(fs0, fs.dirs) by {
      var ext := Ext(pic.originalPath);
      WithFilesGrows(fs0, PictureDirOf(d, id), {CropName(ext), ThumbCropName(ext)});
    }
    HaveFilesGrow(db.pictures, db.instagram, fs0, fs.dirs, d);
    CropKeepsRest(d, id, pic, body, img, now);
    if wasConsistent {
      CropKeepsFiles(fs0, d, id, pic, body, img, now);
    }
    r := WriteBack(db, fs, d, p, commitFails);
  }

  /** The body of cropPicture between the fetch and the update: cap the request, then disable or crop. */
  method CropDecide(fs: Files, d: Dirs, id: Uuid, pic: Picture, body: Crop, img: Rectangle, now: Time) returns (p: Picture)
    modifies fs
    ensures p == CropOutcome(d, id, pic, body, img, now)
    ensures var oW, oH := pic.originalBounds.Dx(), pic.originalBounds.Dy();
            var ext := Ext(pic.originalPath);
      fs.dirs == if CropOff(CapCrop(body, oW, oH), oW, oH) then old(fs.dirs)
                 else WithFiles(old(fs.dirs), PictureDirOf(d, id), {CropName(ext), ThumbCropName(ext)})
  {
    p := pic;
    var oW := p.originalBounds.Dx();
    var oH := p.originalBounds.Dy();
    var crop := body.(width := Min(body.width, oW));
    crop := crop.(height := Min(body.height, oH));
    assert crop == CapCrop(body, oW, oH);

    if crop.width == 0 || crop.height == 0 || (crop.width >= oW && crop.height >= oH) {
      p := p.(useCropped := false);
      p := p.(edited := now);
    } else {
      p := CropRecord(fs, d, id, p, body, crop, img, now);
    }
  }

  /**
   * editPictureContent after parsing: a title or text that is not plain text is a 400 before any
   * lookup; otherwise only the record's content changes.
   */
  method EditPictureContent(db: Store, fs: Files, d: Dirs, id: Uuid, title: string, text: string, commitFails: bool)
    returns (r: HttpResult<PictureResponse>)
    modifies db
    ensures !IsPlainText(title) || !IsPlainText(text) ==>
      r == Fail(StatusBadRequest, ErrNotPlainText) && db.pictures == old(db.pictures)
    ensures var got := old(db.GetDbPicture(id));
      IsPlainText(title) && IsPlainText(text) && got.Err? ==>
        r == Fail(StatusInternalServerError, got.error.Message()) && db.pictures == old(db.pictures)
    ensures var got := old(db.GetDbPicture(id));
      IsPlainText(title) && IsPlainText(text) && got.Ok? ==>
        var p := got.value.(content := Content(title, text));
        if commitFails then r == Fail(StatusInternalServerError, CommitFailed.Message()) && db.pictures == old(db.pictures)
        else r == Reply(FromPicture(p)) && db.pictures == Some(old(db.pictures).value[KeyOf(got.value.id) := Marshal(p)])
    ensures db.instagram == old(db.instagram)
    ensures old(Consistent(db, fs, d)) ==> Consistent(db, fs, d)
  {
    if !IsPlainText(title) || !IsPlainText(text) {
      return Fail(StatusBadRequest, ErrNotPlainText);
    }
    var got := db.GetDbPicture(id);
    if got.Err? {
      return Fail(StatusInternalServerError, got.error.Message());
    }
    var pic := got.value;
    if Consistent(db, fs, d) {
      StoredHasFiles(db, fs, d, id);
    }
    pic := pic.(content := pic.content.(title := title));
    pic := pic.(content := pic.content.(text := text));
    r := WriteBack(db, fs, d, pic, commitFails);
  }

  /**
   * disablePicture after parsing: only Disabled changes (Edited is left alone), so asking for the
   * value the record already has leaves a consistent store exactly as it was.
   */
  method DisablePicture(db: Store, fs: Files, d: Dirs, id: Uuid, disable: bool, commitFails: bool)
    returns (r: HttpResult<PictureResponse>)
    modifies db
    ensures var got := old(db.GetDbPicture(id));
      got.Err? ==> r == Fail(StatusInternalServerError, got.error.Message()) && db.pictures == old(db.pictures)
    ensures var got := old(db.GetDbPicture(id));
      got.Ok? ==>
        var p := got.value.(disabled := disable);
        if commitFails then r == Fail(StatusInternalServerError, CommitFailed.Message()) && db.pictures == old(db.pictures)
        else r == Reply(FromPicture(p)) && db.pictures == Some(old(db.pictures).value[KeyOf(got.value.id) := Marshal(p)])
    ensures var got := old(db.GetDbPicture(id));
      old(db.Valid()) && got.Ok? && got.value.disabled == disable ==> db.pictures == old(db.pictures)
    ensures db.instagram == old(db.instagram)
    ensures old(Consistent(db, fs, d)) ==> Consistent(db, fs, d)
  {
    var got := db.GetDbPicture(id);
    if got.Err? {
      return Fail(StatusInternalServerError, got.error.Message());
    }
    var pic := got.value;
    if Consistent(db, fs, d) {
      StoredHasFiles(db, fs, d, id);
    }
    ghost var b0 := db.pictures.value;
    pic := pic.(disabled := disable);
    if db.Valid() && got.value.disabled == disable {
      assert pic == got.value;
      assert b0[KeyOf(pic.id) := Marshal(pic)] == b0;
    }
    r := WriteBack(db, fs, d, pic, commitFails);
  }

  /**
   * deletePicture after parsing: the record must exist; then its entry goes, then its directory.
   * A successful delete answers with an empty body.
   */
  method DeletePicture(db: Store, fs: Files, d: Dirs, id: Uuid, commitFails: bool, removeFails: bool) returns (r: HttpResult<()>)
    modifies db, fs
    ensures var got := old(db.GetDbPicture(id));
      got.Err? ==>
        r == Fail(StatusInternalServerError, got.error.Message()) && db.pictures == old(db.pictures) && fs.dirs == old(fs.dirs)
    ensures var got := old(db.GetDbPicture(id));
      got.Ok? && commitFails ==>
        r == Fail(StatusInternalServerError, CommitFailed.Message()) && db.pictures == old(db.pictures) && fs.dirs == old(fs.dirs)
    ensures var got := old(db.GetDbPicture(id));
      got.Ok? && !commitFails ==>
        db.pictures == Some(old(db.pictures).value - {KeyOf(got.value.id)})
        && db.GetDbPicture(got.value.id) == Err(NotFound)
        && if removeFails then r == Fail(StatusInternalServerError, RemoveFailed) && fs.dirs == old(fs.dirs)
           else r == Reply(()) && fs.dirs == old(fs.dirs) - {PictureDirOf(d, got.value.id)}
    ensures db.instagram == old(db.instagram)
    ensures old(Consistent(db, fs, d)) ==> Consistent(db, fs, d)
  {
    var got := db.GetDbPicture(id);
    if got.Err? {
      return Fail(StatusInternalServerError, got.error.Message());
    }
    var pic := got.value;
    ghost var wasConsistent := Consistent(db, fs, d);
    var err := db.DeleteDbPicture(pic.id, commitFails);
    if err.Some? {
      return Fail(StatusInternalServerError, err.value.Message());
    }
    var p := PictureDirOf(d, pic.id);
    var removed := fs.RemoveAll(p, removeFails);
    if !removed {
      return Fail(StatusInternalServerError, RemoveFailed);
    }
    if wasConsistent {
      RemovePictureKeepsOthers(old(db.pictures).value, db.instagram, old(fs.dirs), d, pic.id);
    }
    return Reply(());
  }

  /** getPicture after parsing: a failed lookup is a 404 carrying the lookup's error. */
  function GetPicture(db: Store, id: Uuid): (r: HttpResult<PictureResponse>)
    reads db
    ensures r.Fail? <==> db.GetDbPicture(id).Err?
    ensures r.Fail? ==> r == Fail(StatusNotFound, db.GetDbPicture(id).error.Message())
    ensures r.Reply? ==> r.body == FromPicture(db.GetDbPicture(id).value)
    ensures r.Reply? && db.Valid() ==> r.body.id == UuidString(id) && r.body.kind == PictureKind
  {
    match db.GetDbPicture(id)
    case Err(e) => Fail(StatusNotFound, e.Message())
    case Ok(p) => Reply(FromPicture(p))
  }

  function UploadedOf(p: Picture): int { p.uploaded }

  /**
   * getPictures: a missing bucket is a 404 with an empty message, a bucket without a decodable
   * record a 404 "no pictures found in database"; otherwise the listed records sorted newest
   * upload first, projected.
   */
  method GetPictures(db: Store) returns (r: HttpResult<seq<PictureResponse>>, ghost sorted: seq<Picture>, ghost order: seq<Key>)
    ensures db.pictures.None? ==> r == Fail(StatusNotFound, "")
    ensures db.pictures.Some? ==>
      (r.Fail? <==> forall x :: !Stored(db.pictures.value, x))
      && (r.Fail? ==> r == Fail(StatusNotFound, "no pictures found in database"))
    ensures r.Reply? ==>
      db.pictures.Some? && Enumerates(order, db.pictures.value)
      && r.body == Map(sorted, FromPicture) && NewestFirst(sorted, UploadedOf)
      && multiset(sorted) == multiset(DecodedInOrder(db.pictures.value, order))
      && forall x :: x in sorted <==> Stored(db.pictures.value, x)
  {
    var pics, err;
    pics, err, order := db.GetDbPictures();
    sorted := [];
    if err.Some? {
      return Fail(StatusNotFound, ""), sorted, order;
    }
    if |pics| == 0 {
      assert forall x :: !Stored(db.pictures.value, x) by {
        forall x ensures !Stored(db.pictures.value, x) {
          assert x !in pics;
        }
      }
      return Fail(StatusNotFound, "no pictures found in database"), sorted, order;
    }
    assert pics[0] in pics;
    var a := new Picture[|pics|](i requires 0 <= i < |pics| => pics[i]);
    assert a[..] == pics;
    SortNewestFirst(a, UploadedOf);
    sorted := a[..];
    assert forall x :: x in sorted <==> x in multiset(pics);
    var list := Project(a[..], FromPicture);
    return Reply(list), sorted, order;
  }
}
