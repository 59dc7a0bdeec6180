/**
 * The submitted form (`req.body`) and the photo upload steps the two
 * controllers share, line for line: the `fileFilter` of the upload
 * middleware and the file-name part of `resize`.
 */
module Uploads {
  import opened Wrappers
  import opened Text

  /**
   * `req.body`: every field is optional, as the browser sends it.  The
   * handlers write `photo`, `author` and `locationType` in place.
   */
  class RequestBody {
    var name: Option<string>
    var description: Option<string>
    var tags: Option<seq<string>>
    var locationType: Option<string>
    var coordinates: Option<seq<Option<real>>>
    var address: Option<string>
    var author: Option<string>
    var photo: Option<string>
    var mainCategory: Option<string>
    var secondaryCategory: Option<string>

    constructor ()
      ensures name == None && description == None && tags == None && locationType == None
      ensures coordinates == None && address == None && author == None && photo == None
      ensures mainCategory == None && secondaryCategory == None
    {
      name, description, tags, locationType := None, None, None, None;
      coordinates, address, author, photo := None, None, None, None;
      mainCategory, secondaryCategory := None, None;
    }

    /** Whether the form sent a `location` object, that is, any of its fields. */
    predicate HasLocation()
      reads this
    {
      locationType.Some? || coordinates.Some? || address.Some?
    }
  }

  /** The part of an uploaded file the steps look at (its bytes go to the image library). */
  datatype UploadedFile = UploadedFile(mimetype: string)

  datatype FilterDecision = Accept | Reject(message: string)

  const FileTypeError := "That filetype isn't allowed"

  /** `fileFilter`: photos only. */
  function FileFilter(mimetype: string): (d: FilterDecision)
    ensures d.Accept? <==> StartsWith(mimetype, "image/")
    ensures d.Reject? ==> d.message == FileTypeError
  {
    if StartsWith(mimetype, "image/") then Accept else Reject(FileTypeError)
  }

  /** `mimetype.split("/")[1]` as a template string renders it: `undefined` when there is no `/`. */
  function Extension(mimetype: string): string {
    var parts := Split(mimetype, '/');
    if |parts| > 1 then parts[1] else "undefined"
  }

  /** The stored file name `${uuid}.${extension}`. */
  function PhotoName(uuid: string, mimetype: string): string {
    uuid + "." + Extension(mimetype)
  }

  /**
   * For every file the filter accepts, the extension is the subtype: the text
   * after `image/` up to the next `/`.
   */
  lemma AcceptedExtension(mimetype: string)
    requires FileFilter(mimetype).Accept?
    ensures Extension(mimetype) == Split(mimetype[6..], '/')[0]
  {
    assert mimetype == "image" + ['/'] + mimetype[6..];
    SplitFirstPiece("image", '/', mimetype[6..]);
  }

  /** The file name keeps the subtype of a plain image type: `image/png` is stored as `<uuid>.png`. */
  lemma {:induction false} PhotoNameOfImage(uuid: string, subtype: string)
    requires '/' !in subtype
    ensures FileFilter("image/" + subtype).Accept?
    ensures PhotoName(uuid, "image/" + subtype) == uuid + "." + subtype
  {
    var m := "image/" + subtype;
    assert m[..6] == "image/";
    assert m == "image" + ['/'] + subtype;
    SplitFirstPiece("image", '/', subtype);
    SplitNoSeparator(subtype, '/');
  }

  /**
   * `resize`, minus the image work: without a file nothing changes; with one,
   * `req.body.photo` is set to the generated name.  The uuid is an input.
   */
  method Resize(body: RequestBody, file: Option<UploadedFile>, uuid: string)
    modifies body`photo
    ensures file.None? ==> body.photo == old(body.photo)
    ensures file.Some? ==> body.photo == Some(PhotoName(uuid, file.value.mimetype))
  {
    if file.None? {
      return;
    }
    body.photo := Some(PhotoName(uuid, file.value.mimetype));
  }
}
