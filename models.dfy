/** The stored records: pictures uploaded by users and linked Instagram posts. */
module Models {
  import opened GoImage
  import opened GoUuid

  /** An instant (time.Time); only its order matters to the server. */
  type Time = int

  /** The zero time.Time, which a record field holds when nothing set it. */
  const ZeroTime: Time := 0

  /** models.Content: the free-text title/text pair. */
  datatype Content = Content(title: string, text: string)

  /** models.Picture. */
  datatype Picture = Picture(
    id: Uuid,
    content: Content,
    croppedBounds: Rectangle,
    croppedPath: string,
    croppedUrl: string,
    disabled: bool,
    edited: Time,
    originalBounds: Rectangle,
    originalPath: string,
    originalUrl: string,
    thumbnailPath: string,
    thumbnailUrl: string,
    thumbCroppedPath: string,
    thumbCroppedUrl: string,
    topCrop: Rectangle,
    uploaded: Time,
    uploadedFilename: string,
    uploader: string,
    useCropped: bool)

  /** models.InstaData: the oEmbed answer of the Instagram graph API; `kind` is its "type" field. */
  datatype InstaData = InstaData(
    version: string,
    authorName: string,
    providerName: string,
    providerUrl: string,
    kind: string,
    width: int,
    html: string,
    thumbnailUrl: string,
    thumbnailWidth: int,
    thumbnailHeight: int)

  /** models.Instagram. */
  datatype Instagram = Instagram(
    id: Uuid,
    edited: Time,
    disabled: bool,
    postUrl: string,
    thumbnailBounds: Rectangle,
    thumbnailPath: string,
    thumbnailUrl: string,
    uploaded: Time,
    uploader: string,
    data: InstaData)
}
