/** The image service's `ImageService`: uploaded files are stored as image rows, each given a
    download URL that names its own id. The repository is the sequence `images` and the id
    generator the counter `nextId`. `saveImages` is transactional: a file that cannot be read
    undoes every row saved by the same call. */
module Images {
  import opened Wrappers
  import opened Ids
  import Repo

  const DownloadPrefix := "/images/image/download/"
  const OctetStream := "application/octet-stream"
  const MissingUserId := "User ID is missing in headers"
  const ImageNotFoundWithId := "Image not found with ID: "
  const ImageNotFoundMessage := "Image not found"

  type byte = x: int | 0 <= x < 256

  /** An uploaded multipart file; `content` is `None` when reading its bytes fails. */
  datatype UploadedFile = UploadedFile(
    originalFilename: Option<string>, contentType: Option<string>, content: Option<seq<byte>>)

  /** The `Image` row; `createdAt` and `updatedAt` are stamped when it is persisted and
      updated. */
  datatype Image = Image(
    imageId: Uuid, userId: Uuid, fileName: Option<string>, fileType: Option<string>,
    content: seq<byte>, downloadUrl: Option<string>, createdAt: int, updatedAt: int)

  function ImageKey(i: Image): Uuid { i.imageId }

  datatype ImageDto = ImageDto(
    imageId: Uuid, userId: Uuid, fileName: Option<string>, fileType: Option<string>,
    downloadUrl: Option<string>, createdAt: int, updatedAt: int)

  datatype ImageError =
    | UnauthorizedAccess(message: string)
    /** `ImageNotFoundException`. */
    | ImageNotFound(message: string)
    /** `jakarta.ws.rs.NotFoundException`. */
    | NotFound(message: string)
    /** The `RuntimeException` of a file whose bytes cannot be read. */
    | ProcessingFailed

  /** `ImageMapper.fromImage`: every field but the bytes. */
  function FromImage(i: Image): (d: ImageDto)
  {
    ImageDto(i.imageId, i.userId, i.fileName, i.fileType, i.downloadUrl, i.createdAt, i.updatedAt)
  }

  function DownloadUrl(imageId: Uuid): (url: string)
  {
    DownloadPrefix + UuidText(imageId)
  }

  /** Each image has its own download URL, and the URL gives back the id. */
  lemma DownloadUrlNamesTheImage(a: Uuid, b: Uuid)
    ensures DownloadUrl(a) == DownloadUrl(b) <==> a == b
    ensures DownloadUrl(a)[..|DownloadPrefix|] == DownloadPrefix
    ensures DownloadUrl(a)[|DownloadPrefix|..] == UuidText(a)
  {
    if DownloadUrl(a) == DownloadUrl(b) {
      assert UuidText(a) == DownloadUrl(a)[|DownloadPrefix|..];
      assert UuidText(b) == DownloadUrl(b)[|DownloadPrefix|..];
      UuidTextInjective(a, b);
    }
  }

  /** The row `processAndSaveImage` and `updateDownloadUrl` leave for one readable file. */
  function SavedImage(file: UploadedFile, userId: Uuid, imageId: Uuid, now: int): Image
    requires file.content.Some?
  {
    Image(imageId, userId, file.originalFilename, file.contentType, file.content.value,
          Some(DownloadUrl(imageId)), now, now)
  }

  predicate AllReadable(files: seq<UploadedFile>)
  {
    forall i :: 0 <= i < |files| ==> files[i].content.Some?
  }

  /** The rows saved for `files`, with the ids `firstId`, `firstId + 1`, .... */
  function SaveAll(files: seq<UploadedFile>, userId: Uuid, firstId: Uuid, now: int): (r: seq<Image>)
    requires AllReadable(files)
    ensures |r| == |files|
    ensures forall i :: 0 <= i < |files| ==> r[i] == SavedImage(files[i], userId, firstId + i, now)
  {
    if files == [] then []
    else SaveAll(files[..|files| - 1], userId, firstId, now)
         + [SavedImage(files[|files| - 1], userId, firstId + |files| - 1, now)]
  }

  /** The DTO list `saveImages` returns: the mapper applied to each row. */
  function MapImages(images: seq<Image>): (r: seq<ImageDto>)
    ensures |r| == |images|
  {
    if images == [] then [] else MapImages(images[..|images| - 1]) + [FromImage(images[|images| - 1])]
  }

  /** Each returned DTO is the mapping of the row at the same position. */
  lemma {:induction false} MapImagesPointwise(images: seq<Image>)
    ensures forall i :: 0 <= i < |images| ==> MapImages(images)[i] == FromImage(images[i])
  {
    if images != [] {
      MapImagesPointwise(images[..|images| - 1]);
    }
  }

  /** Rows appended with ids above every existing id are found by those ids. */
  lemma {:induction false} AppendedRowsAreFound(old_: seq<Image>, added: seq<Image>, firstId: Uuid, k: nat)
    requires forall i :: 0 <= i < |old_| ==> old_[i].imageId < firstId
    requires forall i :: 0 <= i < |added| ==> added[i].imageId == firstId + i
    requires k < |added|
    ensures Repo.FindByKey(old_ + added, ImageKey, firstId + k) == Some(added[k])
  {
    var s := old_ + added;
    assert s[|old_| + k] == added[k];
    forall j | 0 <= j < |old_| + k
      ensures ImageKey(s[j]) != firstId + k
    {
      if j < |old_| {
        assert s[j] == old_[j];
      } else {
        assert s[j] == added[j - |old_|];
      }
    }
    Repo.IndexOfKeyFirst(s, ImageKey, firstId + k, |old_| + k);
  }

  lemma MapImagesAppend(images: seq<Image>, image: Image)
    ensures MapImages(images + [image]) == MapImages(images) + [FromImage(image)]
  {
    assert (images + [image])[..|images|] == images;
  }

  /** After `saveImages`, the DTO of file `k` names a row that a lookup by its id finds, with
      the URL of that id. */
  lemma SavedRowReadBack(before: seq<Image>, files: seq<UploadedFile>, userId: Uuid, firstId: Uuid, now: int, k: nat)
    requires AllReadable(files) && k < |files|
    requires forall j :: 0 <= j < |before| ==> before[j].imageId < firstId
    ensures var saved := SaveAll(files, userId, firstId, now);
            var dto := MapImages(saved)[k];
            && dto.imageId == firstId + k
            && dto.downloadUrl == Some(DownloadUrl(dto.imageId))
            && Repo.FindByKey(before + saved, ImageKey, dto.imageId) == Some(saved[k])
            && FromImage(saved[k]) == dto
  {
    AppendedRowsAreFound(before, SaveAll(files, userId, firstId, now), firstId, k);
    MapImagesPointwise(SaveAll(files, userId, firstId, now));
  }

  /** One turn of the `saveImages` loop: the row inserted for file `i` and then updated with
      its URL is the row specified for it. */
  lemma SaveStep(before: seq<Image>, files: seq<UploadedFile>, i: nat, userId: Uuid, firstId: Uuid, now: int,
                 image: Image, withUrl: Image)
    requires i < |files| && AllReadable(files[..i]) && files[i].content.Some?
    requires image == Image(firstId + i, userId, files[i].originalFilename, files[i].contentType,
                            files[i].content.value, None, now, now)
    requires withUrl == image.(downloadUrl := Some(DownloadUrl(image.imageId)), updatedAt := now)
    ensures AllReadable(files[..i + 1])
    ensures var done := before + SaveAll(files[..i], userId, firstId, now);
            (done + [image])[|done| := withUrl] == before + SaveAll(files[..i + 1], userId, firstId, now)
    ensures MapImages(SaveAll(files[..i + 1], userId, firstId, now))
              == MapImages(SaveAll(files[..i], userId, firstId, now)) + [FromImage(withUrl)]
  {
    SaveAllStep(files, i, userId, firstId, now);
    var done := SaveAll(files[..i], userId, firstId, now);
    assert withUrl == SavedImage(files[i], userId, firstId + i, now);
    ReplaceLast(before + done, image, withUrl);
    assert before + done + [withUrl] == before + (done + [withUrl]);
    MapImagesAppend(done, withUrl);
  }

  lemma SaveAllStep(files: seq<UploadedFile>, i: nat, userId: Uuid, firstId: Uuid, now: int)
    requires i < |files| && AllReadable(files[..i]) && files[i].content.Some?
    ensures AllReadable(files[..i + 1])
    ensures SaveAll(files[..i + 1], userId, firstId, now)
            == SaveAll(files[..i], userId, firstId, now) + [SavedImage(files[i], userId, firstId + i, now)]
  {
    assert files[..i + 1][..i] == files[..i];
  }

  lemma ReplaceLast(s: seq<Image>, a: Image, b: Image)
    ensures (s + [a])[|s| := b] == s + [b]
  {
    assert forall k :: 0 <= k < |s| + 1 ==> (s + [a])[|s| := b][k] == (s + [b])[k];
  }

  /** Every id after `saveImages` stays below the next one to be issued. */
  lemma SavedIdsBelow(before: seq<Image>, saved: seq<Image>, firstId: Uuid)
    requires forall j :: 0 <= j < |before| ==> before[j].imageId < firstId
    requires forall j :: 0 <= j < |saved| ==> saved[j].imageId == firstId + j
    ensures forall j :: 0 <= j < |before + saved| ==> (before + saved)[j].imageId < firstId + |saved|
  {
    forall j | 0 <= j < |before + saved|
      ensures (before + saved)[j].imageId < firstId + |saved|
    {
      if j >= |before| {
        assert (before + saved)[j] == saved[j - |before|];
      }
    }
  }

  class ImageService {
    var images: seq<Image>
    var nextId: Uuid

    ghost predicate Valid()
      reads this
    {
      forall i :: 0 <= i < |images| ==> images[i].imageId < nextId
    }

    constructor ()
      ensures images == [] && Valid()
    {
      images := [];
      nextId := 0;
    }

    function FindById(imageId: Uuid): (r: Option<Image>)
      reads this
      ensures r.Some? ==> r.value in images && r.value.imageId == imageId
      ensures r.None? <==> forall i :: 0 <= i < |images| ==> images[i].imageId != imageId
    {
      Repo.FindByKey(images, ImageKey, imageId)
    }

    /** `getImageById`. */
    function GetImageById(imageId: Uuid): (r: Result<ImageDto, ImageError>)
      reads this
      ensures r.Err? <==> FindById(imageId).None?
      ensures r.Err? ==> r.error == NotFound(ImageNotFoundMessage)
      ensures r.Ok? ==> r.value.imageId == imageId && r.value == FromImage(FindById(imageId).value)
    {
      match FindById(imageId)
      case None => Err(NotFound(ImageNotFoundMessage))
      case Some(i) => Ok(FromImage(i))
    }

    /** `downloadImage`: the stored bytes. */
    function DownloadImage(imageId: Uuid): (r: Result<seq<byte>, ImageError>)
      reads this
      ensures r.Err? <==> FindById(imageId).None?
      ensures r.Err? ==> r.error == ImageNotFound(ImageNotFoundWithId + UuidText(imageId))
      ensures r.Ok? ==> r.value == FindById(imageId).value.content
    {
      match FindById(imageId)
      case None => Err(ImageNotFound(ImageNotFoundWithId + UuidText(imageId)))
      case Some(i) => Ok(i.content)
    }

    /** `getImageContentType`: the stored type, or the generic binary type when none was sent. */
    function GetImageContentType(imageId: Uuid): (r: Result<string, ImageError>)
      reads this
      ensures r.Err? <==> FindById(imageId).None?
      ensures r.Err? ==> r.error == ImageNotFound(ImageNotFoundWithId + UuidText(imageId))
      ensures r.Ok? && FindById(imageId).value.fileType.None? ==> r.value == OctetStream
      ensures r.Ok? && FindById(imageId).value.fileType.Some? ==> r.value == FindById(imageId).value.fileType.value
    {
      match FindById(imageId)
      case None => Err(ImageNotFound(ImageNotFoundWithId + UuidText(imageId)))
      case Some(i) => Ok(if i.fileType.Some? then i.fileType.value else OctetStream)
    }

    /** `processAndSaveImage`: a readable file is saved as a new row under the next id. */
    method ProcessAndSaveImage(file: UploadedFile, userId: Uuid, now: int) returns (r: Result<Image, ImageError>)
      modifies this`images, this`nextId
      ensures r.Err? <==> file.content.None?
      ensures r.Err? ==> r.error == ProcessingFailed && images == old(images) && nextId == old(nextId)
      ensures r.Ok? ==>
        && r.value == Image(old(nextId), userId, file.originalFilename, file.contentType, file.content.value, None, now, now)
        && images == old(images) + [r.value]
        && nextId == old(nextId) + 1
    {
      if file.content.None? {
        return Err(ProcessingFailed);
      }
      var image := Image(nextId, userId, file.originalFilename, file.contentType, file.content.value, None, now, now);
      images := images + [image];
      nextId := nextId + 1;
      return Ok(image);
    }

    /** `updateDownloadUrl`: the row just saved is saved again, in place, with its URL. */
    method UpdateDownloadUrl(image: Image, now: int) returns (updated: Image)
      requires |images| > 0 && images[|images| - 1] == image
      modifies this`images
      ensures updated == image.(downloadUrl := Some(DownloadUrl(image.imageId)), updatedAt := now)
      ensures images == old(images)[|old(images)| - 1 := updated]
    {
      updated := image.(downloadUrl := Some(DownloadUrl(image.imageId)), updatedAt := now);
      images := images[|images| - 1 := updated];
    }

    /** `saveImages`: one saved row and one DTO per file, in the order of the files; a missing
        user id is refused before anything is saved. */
    method SaveImages(files: seq<UploadedFile>, userId: Option<Uuid>, now: int)
      returns (r: Result<seq<ImageDto>, ImageError>)
      requires Valid()
      modifies this
      ensures Valid()
      ensures userId.None? ==> r == Err(UnauthorizedAccess(MissingUserId))
      ensures r.Ok? <==> userId.Some? && AllReadable(files)
      ensures r.Err? ==> images == old(images)
      ensures r.Ok? ==>
        var saved := SaveAll(files, userId.value, old(nextId), now);
        && images == old(images) + saved
        && r.value == MapImages(saved)
        && nextId == old(nextId) + |files|
    {
      if userId.None? {
        return Err(UnauthorizedAccess(MissingUserId));
      }
      var owner := userId.value;
      var before := images;
      var firstId := nextId;
      var savedImages: seq<ImageDto> := [];
      var i := 0;
      while i < |files|
        invariant 0 <= i <= |files| && AllReadable(files[..i])
        invariant nextId == firstId + i
        invariant images == before + SaveAll(files[..i], owner, firstId, now)
        invariant savedImages == MapImages(SaveAll(files[..i], owner, firstId, now))
      {
        var saved := ProcessAndSaveImage(files[i], owner, now);
        if saved.Err? {
          images := before;
          assert !AllReadable(files) by { assert files[i].content.None?; }
          return Err(saved.error);
        }
        var withUrl := UpdateDownloadUrl(saved.value, now);
        SaveStep(before, files, i, owner, firstId, now, saved.value, withUrl);
        savedImages := savedImages + [FromImage(withUrl)];
        i := i + 1;
      }
      assert files[..i] == files;
      SavedIdsBelow(before, SaveAll(files, owner, firstId, now), firstId);
      return Ok(savedImages);
    }
  }
}
