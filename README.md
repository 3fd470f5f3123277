# bwof-backend: a verified model of the picture and Instagram store

bwof-backend serves a small picture board. An administrator uploads pictures through a multipart
form, or links Instagram posts by URL. The server saves the artifacts under a data directory, one
directory per record (`pictures/<id>/`, `instagram/<id>/`). It stores each record as a JSON document
in a bolt bucket, keyed by the 16 raw bytes of the record's UUID. It then lets the records be read,
listed, cropped, re-titled, switched off and deleted. The public feed (`/api/list`) shows the
enabled records in random order. `/api/posts` lists every record, newest first.

This project models that core in Dafny. It has one module for each source file, and small modules
for the pieces of the Go libraries the core relies on:

- `Wrappers`: Option, Result and an HTTP outcome.
- `GoImage`: `image.Rectangle` and `image.Rect`.
- `GoHex`: the `encoding/hex` codec.
- `GoUuid`: `uuid.UUID` and its `String`.
- `Models`: `pkg/models`.
- `HelperUtils` and `HelperCrypt`: `pkg/helper`.
- `ServerDatabase`: the buckets and the `Store` class, with the get, insert, update, delete and
  list operations.
- `FileSystem`: path functions, and a `Files` class standing for the data volume.
- `ServerState`: the directory layout, the URL-to-file routing of `Run`, and the `Consistent`
  invariant. The invariant says that every stored record's files exist on disk: the original and the
  thumbnail, and the crop and its thumbnail while the crop is in use.
- `Sorting`: the newest-first sort and the shuffle, as in-place array methods.
- `UploadPatterns`: the regular expressions of `upload.go`.
- `ServerUpload`, `ServerPicture`, `ServerInstagram` and `ServerPosts`: the handlers.

Every state-changing handler takes the store and the file system, and changes them in place. Each
handler states its exact new state, and each one preserves `Consistent`.

Things the program reads from outside become parameters: the decoded request, the new UUID, the
clock, smartcrop's box, image decode results, encoder failures, bolt commit failures, the network
fetches and the random generator.

The model follows the code where the code and the description of the system differ:

- `getInstagrams` reports an empty bucket as "no pictures found in database".
- `getList` answers 204 for an empty feed.
- `getPosts` includes disabled records.
- The uploader is left empty when a user *is* present.
- Title and text of an uploaded picture both come from the `text` form field.
- The crop clamp compares against the image's far corner.
- An encode failure does not roll back the record directory.

## Model

| member | source | states |
|---|---|---|
| GoHex.DigitValue | pkg/helper/crypt.go:65-72 | a character decodes to a nibble exactly when it is a hexadecimal digit of either case |
| GoHex.DigitRoundTrip | pkg/helper/crypt.go:65-78 | decoding the lower-case digit of a nibble gives back the nibble |
| GoHex.EncodeToString | pkg/helper/crypt.go:78 | the encoding is two lower-case hexadecimal digits per byte |
| GoHex.DecodeString | pkg/helper/crypt.go:65-72 | decoding succeeds exactly on an even-length string of hexadecimal digits, yielding half as many bytes |
| GoHex.DecodeEncode | pkg/helper/crypt.go:65-78 | decoding the hexadecimal encoding of any byte string gives it back |
| GoHex.EncodeInjective | pkg/helper/crypt.go:78 | distinct byte strings have distinct encodings |
| GoImage.Rect | pkg/server/picture.go:170 | the rectangle keeps the given corners per axis, swapped so that Min <= Max, and is at least as wide and tall as their distance |
| GoImage.RectOrdered | pkg/server/picture.go:170 | corners already in order are kept unchanged, and the size is their difference |
| GoUuid.UuidString | pkg/server/upload.go:64 | the text form of an id is 36 characters with dashes at 8, 13, 18 and 23 |
| GoUuid.DashedGroups | pkg/server/upload.go:64 | with the canonical group lengths, every group can be read back from its position |
| GoUuid.UuidStringInjective | pkg/server/upload.go:162 | distinct ids have distinct text forms, so their directories and URLs never collide |
| HelperUtils.BigEndianBound | pkg/helper/utils.go:10-21 | the big-endian value of n bytes is below 256^n |
| HelperUtils.BigEndianOfPut | pkg/helper/utils.go:10-14 | reading back the n-byte big-endian form of x gives x |
| HelperUtils.Itob | pkg/helper/utils.go:10-14 | the form of an id is 8 bytes |
| HelperUtils.Btoi | pkg/helper/utils.go:16-21 | a slice that is not 8 bytes long reads as 0 |
| HelperUtils.BtoiItob | pkg/helper/utils.go:10-21 | Btoi undoes Itob for every uint64 |
| HelperUtils.ItobInjective | pkg/helper/utils.go:10-14 | distinct uint64 values have distinct byte forms |
| HelperUtils.BtoiBigEndian | pkg/helper/utils.go:16-21 | Btoi of 8 bytes weighs them most significant first |
| HelperUtils.PutBigEndian | pkg/helper/utils.go:10-14 | binary.BigEndian.PutUint64, for n bytes: the form has exactly n bytes; BigEndianOfPut reads it back |
| HelperUtils.BigEndian | pkg/helper/utils.go:16-21 | binary.BigEndian.Uint64, for any length: the first byte weighs most; BigEndianBound bounds it |
| HelperUtils.UUIDtoBytes | pkg/helper/utils.go:23-28 | the key of an id is its 16 bytes in order |
| HelperUtils.UUIDtoBytesInjective | pkg/helper/utils.go:23-28 | distinct ids give distinct bucket keys |
| HelperCrypt.XorBelow | pkg/helper/crypt.go:88 | the exclusive or of two n-bit values is an n-bit value, so the XOR of two bytes is a byte |
| HelperCrypt.XorCancel | pkg/helper/crypt.go:88 | XOR with the same value twice gives back the original |
| HelperCrypt.XorByteCancel | pkg/helper/crypt.go:88 | XOR with the same byte twice gives back the original byte |
| HelperCrypt.XorByte | pkg/helper/crypt.go:88 | `key[i] ^ input[i]` on two bytes, a byte again by XorBelow; XorByteCancel undoes it |
| HelperCrypt.XorBytes | pkg/helper/crypt.go:86-89 | the result has the input's length, and each byte is the key byte XOR the input byte at the same index |
| HelperCrypt.XorInvolution | pkg/helper/crypt.go:81-92 | XOR with the same key undoes itself |
| HelperCrypt.Xor | pkg/helper/crypt.go:81-92 | the loop fails exactly when the key is shorter than the input; otherwise it yields the element-wise XOR |
| HelperCrypt.XorString | pkg/helper/crypt.go:64-79 | succeeds exactly when both strings decode and the key is long enough; the result is the lower-case hex encoding of the XOR of the decoded bytes |
| HelperCrypt.XorStringTwice | pkg/helper/crypt.go:64-79 | applying xorString twice with one key gives back the input, in lower-case hex |
| HelperCrypt.CapLength | pkg/helper/crypt.go:12-14 | the length is capped at 128 and is unchanged below the cap |
| HelperCrypt.Kept | pkg/helper/crypt.go:34-43 | the kept characters are no more than the buffer's and contain no '+' or '/' |
| HelperCrypt.KeptPrefix | pkg/helper/crypt.go:34-43 | the characters kept from a prefix come first among those kept from the whole buffer |
| HelperCrypt.FillKept | pkg/helper/crypt.go:32-43 | the loop copies the first min(n, kept) kept characters in order, leaves the rest zero, and counts the copied ones |
| HelperCrypt.GenString | pkg/helper/crypt.go:11-48 | a result has the capped length and holds no '+' or '/'; short attempts are retried, so the first attempt that is not short decides: a failed read there is an error, and one that keeps enough gives the first capped-length characters it keeps; when every attempt is short the result is an error |
| HelperCrypt.GenKey | pkg/helper/crypt.go:50-62 | no key for length 0 or when the random source fails, otherwise exactly len bytes |
| FileSystem.Join | pkg/server/upload.go:162 | the joined path is the directory, one '/', then the name |
| FileSystem.JoinInjective | pkg/server/upload.go:168-173 | names joined to one directory collide only when they are equal |
| FileSystem.Ext | pkg/server/picture.go:137 | the extension is a suffix of the path that starts with '.' and holds no other '.' and no '/', or it is empty |
| FileSystem.ExtOfName | pkg/server/picture.go:137 | the extension of name.ext is ".ext" |
| FileSystem.Base | pkg/server/upload.go:216-217 | the base is a '/'-free suffix of the path |
| FileSystem.Dir | pkg/server/upload.go:233 | the directory is a proper prefix of the path |
| FileSystem.BaseOfJoin | pkg/server/upload.go:216-217 | the base of a joined path is the name joined |
| FileSystem.DirOfJoin | pkg/server/upload.go:233 | the directory of a joined path is the directory joined, so the rollback removes the record's own directory |
| FileSystem.RemoveUndoesAdd | pkg/server/upload.go:232-235 | removing a directory that was just added restores the listing from before |
| FileSystem.Files.Mkdir | pkg/server/upload.go:163-166 | creating a directory fails exactly when it exists, and otherwise adds it empty |
| FileSystem.Files.Create | pkg/server/upload.go:168-177 | creating a file fails exactly when its directory is missing, and otherwise adds the name |
| FileSystem.Files.RemoveAll | pkg/server/picture.go:310-315 | it fails exactly when the disk error is given; on success the directory and its files are gone, and nothing else changes; on failure nothing changes |
| ServerDatabase.Marshal | pkg/server/database.go:23-28 | encoding a record always succeeds, and the document decodes back to it |
| ServerDatabase.Unmarshal | pkg/server/database.go:80-88 | decoding fails exactly on a document that is not an encoded record |
| ServerDatabase.UnmarshalMarshal | pkg/server/database.go:80-88 | every document that decodes is the encoding of what it decodes to |
| ServerDatabase.KeyOf | pkg/server/database.go:28 | a record's key is the 16 bytes of its id |
| ServerDatabase.Lookup | pkg/server/database.go:73-90 | a get fails "can't open bucket" exactly without a bucket, "not found" exactly without the key, and succeeds exactly on a decodable document, returning the record it encodes |
| ServerDatabase.LookupAfterPut | pkg/server/database.go:17-31 | after a Put of x under its id, a get of that id returns x |
| ServerDatabase.LookupOtherKey | pkg/server/database.go:49-59 | a Put or Delete of one id leaves the gets of every other id unchanged |
| ServerDatabase.LookupAfterDelete | pkg/server/database.go:151-158 | after a Delete of an id, a get of it fails "not found" |
| ServerDatabase.DecodedMembers | pkg/server/database.go:120-126 | a record is listed exactly when its document sits under one of the enumerated keys |
| ServerDatabase.DecodedAll | pkg/server/database.go:120-126 | without corrupt documents, a listing has one record per enumerated key |
| ServerDatabase.ListedRecords | pkg/server/database.go:111-129 | a full enumeration lists exactly the stored records, and all of them when none is corrupt |
| ServerDatabase.ForEachDecoded | pkg/server/database.go:120-126 | the loop visits every key exactly once and appends the decodable records in visit order |
| ServerDatabase.Store.GetDbPicture | pkg/server/database.go:73-90 | the lookup in the picture bucket, returning the record of the id asked for |
| ServerDatabase.Store.GetDbInstagram | pkg/server/database.go:92-109 | the lookup in the instagram bucket, returning the post of the id asked for |
| ServerDatabase.Store.InsertNewPicture | pkg/server/database.go:17-31 | creates the bucket if missing and puts the record under its id; a failed commit changes nothing; the record can then be read back; the other bucket and each key's match to its record's id are kept |
| ServerDatabase.Store.InsertNewInstagram | pkg/server/database.go:33-47 | the same for a post |
| ServerDatabase.Store.UpdatePicture | pkg/server/database.go:49-59 | overwrites the entry of the record's id, or changes nothing on a failed commit |
| ServerDatabase.Store.UpdateInstagram | pkg/server/database.go:61-71 | the same for a post |
| ServerDatabase.Store.DeleteDbPicture | pkg/server/database.go:151-158 | removes the entry of the id, after which a get of it fails "not found"; a missing key is not an error |
| ServerDatabase.Store.DeleteDbInstagram | pkg/server/database.go:160-167 | the same for a post |
| ServerDatabase.Store.GetDbPictures | pkg/server/database.go:111-129 | without a bucket, an error and nothing listed; otherwise the decodable records in one enumeration's order, exactly the stored ones |
| ServerDatabase.Store.GetDbInstagrams | pkg/server/database.go:131-149 | the same for posts |
| ServerState.PictureDirOf | pkg/server/upload.go:162 | a picture's directory is pictures/<36-character id> under the data directory |
| ServerState.InstaDirOf | pkg/server/upload.go:320 | a post's directory is instagram/<36-character id> under the data directory |
| ServerState.PictureUrl | pkg/server/upload.go:216-217 | the `/pictures/%s/%s` URL of a picture file; PictureUrlServes maps it back to the file |
| ServerState.InstaUrl | pkg/server/upload.go:347 | the `/instagram/%s/%s` URL of a post's thumbnail; InstaUrlServes maps it back to the file |
| ServerState.RecordDirsDistinct | pkg/server/server.go:39-48 | records never share a directory: one per id, and picture directories apart from post directories |
| ServerState.ServedFile | pkg/server/server.go:88-91 | only URLs under /pictures/ or /instagram/ are served from the data directory |
| ServerState.PictureUrlServesAny | pkg/server/server.go:88-89 | /pictures/<u>/<name> is served from pictures/<u>/<name> |
| ServerState.InstaUrlServesAny | pkg/server/server.go:90-91 | /instagram/<u>/<name> is served from instagram/<u>/<name> |
| ServerState.PictureUrlServes | pkg/server/server.go:88-89 | a picture URL names the file of that name in the picture's directory |
| ServerState.InstaUrlServes | pkg/server/server.go:90-91 | an Instagram URL names the file of that name in the post's directory |
| ServerState.HaveFilesGrow | pkg/server/upload.go:163-177 | creating directories and files keeps every record's files |
| ServerState.PutPictureHasFiles | pkg/server/database.go:17-31 | putting a picture whose files exist keeps every record's files |
| ServerState.PutInstaHasFiles | pkg/server/database.go:33-47 | putting a post whose thumbnail exists keeps every record's files |
| ServerState.RemovePictureKeepsOthers | pkg/server/picture.go:304-313 | deleting the record of an id, then its directory, keeps the files of every other record |
| ServerState.RemoveInstaKeepsOthers | pkg/server/instagram.go:108-117 | deleting the post of an id, then its directory, keeps the files of every other record |
| Sorting.Swap | pkg/server/picture.go:77-79 | exchanges two elements and moves nothing else |
| Sorting.InsertNewest | pkg/server/picture.go:77-79 | one insertion step extends the newest-first prefix by one element, keeping the multiset |
| Sorting.SortNewestFirst | pkg/server/picture.go:77-79 | afterwards upload times never increase along the array, and the array is a permutation of the input |
| Sorting.Shuffle | pkg/server/posts.go:78-81 | the shuffled array is a permutation of the input |
| Sorting.Map | pkg/server/picture.go:81-84 | the projection has one element per input element: f of the element at the same index |
| Sorting.Project | pkg/server/picture.go:81-84 | the loop into a fresh slice computes that projection |
| UploadPatterns.PlainTextEmpty | pkg/server/upload.go:36 | the empty title and text are accepted |
| UploadPatterns.PlainTextConcat | pkg/server/upload.go:36 | a text is accepted exactly when both its parts are |
| UploadPatterns.PlainTextHasNoMarkup | pkg/server/upload.go:36 | accepted text contains no '<', '>', ';' or '/' |
| UploadPatterns.WordRunEnd | pkg/server/upload.go:37 | the run of \w characters from i is maximal: all word characters, followed by none |
| UploadPatterns.WordRunEndPrefix | pkg/server/upload.go:37 | a run that ends inside a prefix ends at the same place in that prefix |
| UploadPatterns.WordRunOver | pkg/server/upload.go:37 | a run of word characters not followed by one is the whole run |
| UploadPatterns.HostEnd | pkg/server/upload.go:37 | a matched host part ends at index 25 (http) or 26 (https) |
| UploadPatterns.HostEndPrefix | pkg/server/upload.go:37 | the host part is read from the first characters only, so a prefix long enough has it too |
| UploadPatterns.HostEndExtend | pkg/server/upload.go:37 | a string extending one with a host part has the same host part |
| UploadPatterns.HostOfPost | pkg/server/upload.go:37 | a URL starting with https://www.instagram.com/ has its host part end just after that prefix |
| UploadPatterns.InstaMatch | pkg/server/upload.go:37 | the url group is a proper prefix of the input and is followed by '/' |
| UploadPatterns.CaptureDoesNotMatch | pkg/server/upload.go:37 | the captured url group itself does not match the regex |
| UploadPatterns.Normalized | pkg/server/upload.go:255-260 | normalising only ever shortens a URL to a prefix of it |
| UploadPatterns.NormalizedIdempotent | pkg/server/upload.go:255-260 | normalising twice is normalising once |
| UploadPatterns.WordRunOfWord | pkg/server/upload.go:37 | a word followed by a non-word character or by nothing is one whole \w run |
| UploadPatterns.NormalizedPost | pkg/server/upload.go:37 | every post URL with non-empty user and post segments is cut back to https://www.instagram.com/<user>/<post> |
| UploadPatterns.ReplaceAmp | pkg/server/upload.go:301-303 | the rewrite never lengthens the text |
| UploadPatterns.ReplaceAmpUnchanged | pkg/server/upload.go:301-303 | a text without the escape is unchanged |
| UploadPatterns.AmpFirst | pkg/server/upload.go:301-303 | an escape at the front becomes a leading '&' |
| UploadPatterns.ReplaceAmpCopies | pkg/server/upload.go:301-303 | a prefix of the result without '&' is copied unchanged from the input |
| UploadPatterns.ReplaceAmpComplete | pkg/server/upload.go:301-303 | no escape is left after the rewrite, and the rewrite creates none |
| UploadPatterns.StartNotEscaped | pkg/server/upload.go:301-303 | a text that does not start with the escape does not after the rewrite either |
| UploadPatterns.IsMultipart | pkg/server/upload.go:33 | typeRegex: `multipart/form-data` occurs somewhere in the content type, in any case under simple folding |
| UploadPatterns.MultipartWithParameters | pkg/server/upload.go:33 | typeRegex is unanchored: a matching content type still matches with anything before or after it, such as a boundary parameter |
| UploadPatterns.IsImageMime | pkg/server/upload.go:34 | mimeRegex: the whole MIME type is image/png, image/jpeg or image/jpg in any case |
| UploadPatterns.ImageMimeAnchored | pkg/server/upload.go:34 | mimeRegex is anchored: nothing may follow an accepted MIME type |
| UploadPatterns.IsJpegFormat | pkg/server/upload.go:35 | jpegRegex: the whole format name is jpeg or jpg in any case; ExtFor relies on it |
| UploadPatterns.IsPlainText | pkg/server/upload.go:36 | plainTextRegex: every character is in the class, so the empty text matches; PlainTextConcat and PlainTextHasNoMarkup state its properties |
| ServerUpload.FromPicture | pkg/server/upload.go:61-80 | a picture response has the picture kind, the id's text form and the upload time as creation time |
| ServerUpload.FromInsta | pkg/server/upload.go:82-94 | a post response has the Instagram kind, the id's text form and the upload time as creation time |
| ServerUpload.FromPictureFields | pkg/server/upload.go:61-80 | the response carries the original's size, the content and the flags, and a zero edit time; the crop never changes the reported size |
| ServerUpload.FromInstaFields | pkg/server/upload.go:82-94 | a post response carries the oEmbed type and HTML, the thumbnail and the times, and no picture URL or size |
| ServerUpload.ResponsesIdentify | pkg/server/upload.go:61-94 | responses of pictures with the same id are of the same picture, and a picture response never equals a post response |
| ServerUpload.ExtFor | pkg/server/upload.go:154-157 | the extension is "jpg" exactly for a jpeg/jpg format in any case, and "png" for every other format |
| ServerUpload.NamesArePlain | pkg/server/upload.go:159-161 | the file names hold no '/', and the original's extension is the chosen one |
| ServerUpload.PictureFileUrl | pkg/server/upload.go:216-217 | the URL of a picture file is /pictures/<id>/<name>, and it is served from that file |
| ServerUpload.InstaFileUrl | pkg/server/upload.go:347 | the URL of a post thumbnail is /instagram/<id>/<name>, and it is served from that file |
| ServerUpload.NewPictureUrls | pkg/server/upload.go:210-224 | the new record's URLs name its original and thumbnail, and are served from the stored files |
| ServerUpload.NewPictureFields | pkg/server/upload.go:210-230 | a new picture has the given id, bounds, content, time and crop box; it is uncropped, enabled and unedited; it is anonymous exactly without a user |
| ServerUpload.NewInstagramFields | pkg/server/upload.go:340-356 | a new post keeps its URL and oEmbed data and is enabled; its thumbnail URL is served from its stored file; it is anonymous exactly without a user |
| ServerUpload.NewPicture | pkg/server/upload.go:210-230 | the struct literal of a new picture; NewPictureFields and NewPictureUrls state its fields |
| ServerUpload.NewInstagram | pkg/server/upload.go:340-356 | the struct literal of a new post; NewInstagramFields states its fields |
| ServerUpload.OEmbedRequest | pkg/server/upload.go:278-283 | the Graph API oEmbed request URL: fbGraphUrl, then o_embedPost with the post URL |
| ServerUpload.MakePictureDir | pkg/server/upload.go:162-177 | fails exactly when the record directory exists; otherwise the directory holds the original and the thumbnail |
| ServerUpload.MakeInstaDir | pkg/server/upload.go:320-329 | fails exactly when the post directory exists; otherwise the directory holds the thumbnail |
| ServerUpload.InsertPictureOrRollback | pkg/server/upload.go:232-236 | with a failed commit the directory is removed and the file system is as before the upload, unless that removal fails, whose error is ignored; otherwise the record is stored; the invariant holds either way |
| ServerUpload.InsertInstaOrRollback | pkg/server/upload.go:358-363 | the same for a post, the failed removal included |
| ServerUpload.SavePicture | pkg/server/upload.go:146-237 | succeeds exactly on a decoded image, a fresh directory and no encode or commit failure, storing the new record and its two files; a taken directory changes nothing; an encode failure leaves the directory; a failed commit rolls it back, unless the removal fails and the directory stays; keeps the invariant |
| ServerUpload.UploadPicture | pkg/server/upload.go:96-144 | 400 exactly on a non-multipart request, a bad form, a missing file, a non-image MIME type or a non-plain text, with nothing changed; a reply exactly when the upload is valid, the image decodes, the directory is fresh and no encode or commit fails; on a reply the new record, with title and text from the text field, is stored and its directory holds exactly the original and the thumbnail; on a 500 no record is stored and the file system is as before, except that an encode failure or a failed rollback leaves the new directory; the instagram bucket never changes; keeps the invariant |
| ServerUpload.FixThumbnailUrl | pkg/server/upload.go:301-303 | only the thumbnail URL changes, and no escaped '&' is left in it |
| ServerUpload.FetchPost | pkg/server/upload.go:278-313 | the two fetches yield the oEmbed data, with its thumbnail URL rewritten, and the decoded thumbnail |
| ServerUpload.SaveInstagram | pkg/server/upload.go:276-364 | succeeds exactly when both fetches succeed, the directory is fresh and nothing fails, storing the new post and its thumbnail; the failure paths as for pictures; keeps the invariant |
| ServerUpload.FindStringSubmatch | pkg/server/upload.go:255 | no match, or the whole string and the url group |
| ServerUpload.NormalizeInstaUrl | pkg/server/upload.go:255-260 | the loop over the group names yields the normalised URL |
| ServerUpload.UploadInstagram | pkg/server/upload.go:239-274 | 400 exactly on a bad form or an empty URL, with nothing changed; a reply exactly when both fetches for the normalised URL succeed, the directory is fresh and no encode or commit fails; on a reply the new post with the normalised URL is stored and its directory holds exactly the thumbnail; on a 500 no post is stored and the file system is as before, except that an encode failure or a failed rollback leaves the new directory; the picture bucket never changes; keeps the invariant |
| ServerPicture.Min | pkg/server/picture.go:318-323 | the minimum is one of the two and no larger than either |
| ServerPicture.CapCrop | pkg/server/picture.go:112-116 | the origin is kept; width and height are each capped at the original's, and otherwise kept |
| ServerPicture.ShiftAxisSpec | pkg/server/picture.go:150-168 | a negative origin is moved to 0, keeping the size when it fits and otherwise keeping the far edge; a non-negative origin is kept |
| ServerPicture.ShiftAxis | pkg/server/picture.go:150-168 | the shift of a negative origin on one axis, as written; ShiftAxisSpec states its meaning |
| ServerPicture.CroppedBox | pkg/server/picture.go:150-170 | the stored crop rectangle is well formed |
| ServerPicture.CroppedBoxPlain | pkg/server/picture.go:150-170 | for a non-negative request the box is the capped request itself |
| ServerPicture.CroppedBoxUnbounded | pkg/server/picture.go:150-170 | the box is not kept inside the image: a far edge past the image is stored as asked |
| ServerPicture.CropDisabled | pkg/server/picture.go:120-134 | the crop is used exactly when the capped request is neither empty nor covering; when it is, only Edited and UseCropped change |
| ServerPicture.CropNamesPlain | pkg/server/picture.go:136-141 | the crop file names hold no '/' |
| ServerPicture.CropApplied | pkg/server/picture.go:136-205 | a crop stores the clamped box, the crop URLs /pictures/<id>/crop<ext> and thumb_crop<ext>, and the paths in the picture's directory |
| ServerPicture.CropKeepsRest | pkg/server/picture.go:120-205 | either way only the crop fields and Edited change; the id, content and original files stay |
| ServerPicture.WithFilesGrows | pkg/server/picture.go:182-186 | adding files keeps every directory and file |
| ServerPicture.CropKeepsFiles | pkg/server/picture.go:182-213 | the record written back finds its original's files, and the crop and its thumbnail while the crop is in use, in the listing after the crop files are opened |
| ServerPicture.StoredHasFiles | pkg/server/picture.go:106-110 | a stored picture's files exist in any consistent state |
| ServerPicture.WriteBack | pkg/server/picture.go:207-213 | the update stores the record and answers with its response, or changes nothing on a failed commit; the invariant is kept when the record's files exist |
| ServerPicture.ClampOrigin | pkg/server/picture.go:150-168 | the step-by-step clamp computes the shifted corners on both axes |
| ServerPicture.CropBounds | pkg/server/picture.go:150-170 | the clamp followed by image.Rect computes the stored box |
| ServerPicture.CreateCropFiles | pkg/server/picture.go:182-186 | the crop and its thumbnail are added to the picture's directory when it exists |
| ServerPicture.CropRecord | pkg/server/picture.go:136-205 | the crop path computes the record and adds its two files |
| ServerPicture.CropDecide | pkg/server/picture.go:112-205 | the record written back is the crop outcome; files are added only when the crop is applied |
| ServerPicture.CropOutcome | pkg/server/picture.go:130-205 | the record cropPicture writes back; CropDisabled, CropApplied and CropKeepsRest state its fields |
| ServerPicture.CropPicture | pkg/server/picture.go:89-214 | a failed lookup is a 500 and changes nothing; otherwise the crop outcome is written back, or nothing on a failed commit; keeps the invariant |
| ServerPicture.EditPictureContent | pkg/server/picture.go:216-256 | a non-plain title or text is a 400 and changes nothing; a failed lookup is a 500; otherwise only the content changes; keeps the invariant |
| ServerPicture.DisablePicture | pkg/server/picture.go:258-287 | only Disabled changes, so setting the value it already has leaves the store as it was; keeps the invariant |
| ServerPicture.DeletePicture | pkg/server/picture.go:289-316 | a failed lookup or commit is a 500 that changes nothing; otherwise the entry is gone and a get of the id fails "not found"; the picture's directory is gone too, or RemoveAll failed and the answer is a 500 with the directory still there; keeps the invariant |
| ServerPicture.GetPicture | pkg/server/picture.go:44-63 | a 404 exactly when the lookup fails, carrying its message; otherwise the response of the picture with that id |
| ServerPicture.GetPictures | pkg/server/picture.go:65-87 | a missing bucket or no decodable record is a 404; otherwise the responses of exactly the stored pictures, as a permutation of one listing, newest upload first |
| ServerInstagram.GetInstagram | pkg/server/instagram.go:17-36 | a 404 exactly when the lookup fails, carrying its message; otherwise the response of the post with that id |
| ServerInstagram.GetInstagrams | pkg/server/instagram.go:38-60 | a missing bucket or no decodable post is a 404; otherwise the responses of exactly the stored posts, newest upload first |
| ServerInstagram.StoredHasFiles | pkg/server/instagram.go:78-82 | a stored post's thumbnail exists in any consistent state |
| ServerInstagram.DisableInstagram | pkg/server/instagram.go:62-91 | only Disabled changes, so setting the value it already has leaves the store as it was; keeps the invariant |
| ServerInstagram.DeleteInstagram | pkg/server/instagram.go:93-120 | a failed lookup or commit is a 500 that changes nothing; otherwise the entry is gone and a get of the id fails "not found"; the post's directory is gone too, or RemoveAll failed and the answer is a 500 with the directory still there; keeps the invariant |
| ServerPosts.PictureItem | pkg/server/posts.go:35-57 | a picture entry has the picture kind and the picture's title and text |
| ServerPosts.InstaItem | pkg/server/posts.go:59-72 | a post entry has the Instagram kind |
| ServerPosts.PictureItemChoice | pkg/server/posts.go:35-57 | the entry shows the crop and its size when the crop is used, and the original and its size otherwise |
| ServerPosts.InstaItemFields | pkg/server/posts.go:59-72 | a post entry carries the type and HTML with no URL and no size, and never equals a picture entry |
| ServerPosts.Enabled | pkg/server/posts.go:36-38 | the kept records are among the input and none is switched off |
| ServerPosts.EnabledCount | pkg/server/posts.go:36-38 | every enabled record is kept as often as it occurs, and every disabled one is dropped |
| ServerPosts.MapEnabledMembers | pkg/server/posts.go:35-72 | an entry of the projection is the projection of one enabled record |
| ServerPosts.FeedMembers | pkg/server/posts.go:35-72 | the feed has one entry per enabled picture and enabled post, and nothing else |
| ServerPosts.AppendEnabled | pkg/server/posts.go:35-57 | one loop appends the entries of the enabled records in order |
| ServerPosts.AssembleList | pkg/server/posts.go:35-72 | the two loops build the enabled pictures' entries, then the enabled posts' |
| ServerPosts.GetList | pkg/server/posts.go:21-83 | lists each existing bucket as one enumeration's decodable records in order, so no record appears twice; 204 exactly when the feed is empty; otherwise a permutation of the feed |
| ServerPosts.GetPosts | pkg/server/posts.go:85-114 | lists each existing bucket as one enumeration's decodable records in order; a 404 exactly when both lists are empty; otherwise the responses of every record, disabled ones included, newest first |

## Left out

- HTTP plumbing is not modelled: routing, CORS, JSON response writing and the cleanup goroutine (`pkg/helper/httpWriter.go`, `pkg/helper/cleanup.go`, `cmd/server/main.go`, `pkg/models/response.go`). Handlers take decoded requests and return a status with a body or a message.
- UUID parsing of the path and JSON decoding of request bodies are not modelled. Their 400 answers are left out, and handlers take the parsed values.
- Environment reading (`pkg/helper/env.go`), the "./" strip of the data directory (`pkg/server/server.go:35-37`) and the directory creation at start-up are left out: the data directory is a parameter.
- HotRotation is left out: it needs floating point and the clock.
- The target-ratio box of savePicture (`pkg/server/upload.go:181-187`) uses floating point, and smartcrop is a foreign library. The resulting top crop is a parameter.
- Image decoding, resizing and encoding, and the cutter, are foreign code. A decode result is a parameter, and an encode failure is a boolean.
- The two network fetches of saveInstagram are functions given as parameters.
- uuid.New, time.Now and the random sources are parameters. The two clock readings of saveInstagram are one instant.
- bolt is modelled as atomic transactions without concurrency. A commit failure is a parameter, and ForEach visits the keys in an arbitrary order.
- The JSON byte format is abstract (`Marshal`/`Unmarshal`). Library error texts are fixed stand-in strings.
- Join: assumes clean names and does not model path cleaning of "..", "." or repeated '/'.
- Itob: uint64 values are kept in range by a subset type; no other 64-bit overflow is modelled.
- CropPicture: a decode failure of the original makes Go panic. The model takes the decoded image's bounds as given, and ignores encode errors of the crop files, as the code does.
- CropRecord: the double close of one file handle (`pkg/server/picture.go:182-186`) is not modelled.
- BytesToUUID is not modelled: it parses text, not the binary key form, and nothing in the core calls it.
- GenString: its unbounded retry is modelled over a finite sequence of random attempts.
- Files.RemoveAll: a failure is modelled as leaving the listing unchanged. A RemoveAll that deletes some files before it fails is not modelled.
- Files.Mkdir and Files.Create fail only on an existing or, respectively, a missing directory. Disk and permission errors are not modelled.
- GetList: the second response written after the 204 is not modelled.
- GenKey: the diagnostic print on a failed random read is left out.
- GenString and GenKey: a negative length makes Go's `make` panic (`pkg/helper/crypt.go:15`, `pkg/helper/crypt.go:55`). The model takes the length as non-negative instead of modelling the panic.
- Base and Dir: they agree with Go's filepath.Base and filepath.Dir only on the names the server builds. Go gives "." for `Base("")` and `Dir("a")`, and "a" for `Base("a/")`; the model gives "" in all three cases.
