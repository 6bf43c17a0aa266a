/** The `fileFilter` callback that the multipart parser calls once per
    uploaded file: it decides on the client-declared MIME type alone. */
module UploadFilter {
  import opened JsText

  /** The declared types that are let through, in the order the server lists them. */
  const AllowedMimeTypes: seq<string> :=
    ["image/jpeg", "image/png", "image/webp", "video/mp4", "video/quicktime"]

  /** The message of the error handed to the callback on rejection. */
  const RejectionMessage: string := "Type de fichier non autoris\U{E9}"

  /** The two arguments given to the callback `cb(error, accept)`:
      `error` is `None` for `null`, `Some(message)` for an `Error`. */
  datatype Verdict = Verdict(error: Option<string>, accept: bool)

  /** `list.includes(x)` for strings: a scan that compares with `===`. */
  function Includes(list: seq<string>, x: string): (r: bool)
    ensures r <==> x in list
  {
    if list == [] then false else list[0] == x || Includes(list[1..], x)
  }

  /** The filter: the callback gets `(null, true)` for one of the five
      allowed types and `(Error("Type de fichier non autorisé"), false)`
      for anything else. The `mimetype` string it receives is compared
      exactly: no case folding, no trimming, no media-type parameters. */
  function FileFilter(mimetype: string): (v: Verdict)
    ensures v.accept <==>
      mimetype == "image/jpeg" || mimetype == "image/png" || mimetype == "image/webp"
      || mimetype == "video/mp4" || mimetype == "video/quicktime"
    ensures v.accept <==> v.error == None
    ensures !v.accept ==> v.error == Some(RejectionMessage)
  {
    if Includes(AllowedMimeTypes, mimetype) then Verdict(None, true)
    else Verdict(Some(RejectionMessage), false)
  }

  /** A `mimetype` string made of an allowed type followed by anything else
      (a parameter such as `; charset=binary`, a trailing space) is
      rejected. */
  lemma DecoratedTypeRejected(allowed: string, suffix: string)
    requires allowed in AllowedMimeTypes
    requires suffix != []
    ensures !FileFilter(allowed + suffix).accept
  {
    var t := allowed + suffix;
    assert t[..|allowed|] == allowed;
    // Any two allowed types already differ at index 6, just after the `/`.
    forall a | a in AllowedMimeTypes && |a| > |allowed|
      ensures a[..|allowed|] != allowed
    {
      assert a[6] != allowed[6];
    }
  }
}
