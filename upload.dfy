/**
 * File uploads: the allow-lists that decide whether a file is taken, the name
 * it is stored under, and the two upload routes.  The generated unique id and
 * the disk write are outside the model: the id is a parameter.
 */
module Upload {
  import opened Wrappers
  import opened Js
  import Auth

  const ImageTypes := ["image/jpeg", "image/png", "image/gif"]
  const DocTypes := ["application/pdf"]
  const Destination := "uploads/"
  /** The public path under which the destination directory is served. */
  const UrlPrefix := "/uploads/"
  const MaxFileSize := 10 * 1024 * 1024
  const PdfOnly := "Invalid file type. Only PDF files are allowed for resumes."
  const ImagesOnly := "Invalid file type. Only JPEG, PNG and GIF are allowed for images."
  const NoFile := "No file uploaded"

  datatype Verdict = Accept | Reject(message: string)

  /** `req.path.includes('resume')` */
  predicate IsResumeUpload(path: string) {
    Contains(path, "resume")
  }

  /** `fileFilter`: PDFs only on a resume path, the three image types anywhere else. */
  function FileFilter(path: string, mimetype: string): (r: Verdict)
    ensures IsResumeUpload(path) ==> (r.Accept? <==> mimetype in DocTypes)
    ensures !IsResumeUpload(path) ==> (r.Accept? <==> mimetype in ImageTypes)
    ensures r.Reject? ==> r.message == if IsResumeUpload(path) then PdfOnly else ImagesOnly
  {
    if IsResumeUpload(path) then
      if mimetype in DocTypes then Accept else Reject(PdfOnly)
    else
      if mimetype in ImageTypes then Accept else Reject(ImagesOnly)
  }

  /** The routes are mounted under `/api/upload`, so the filter sees `/resume` and `/`. */
  lemma ResumePathIsResume()
    ensures IsResumeUpload(PathOf(ResumeRoute))
  {
    assert OccursAt("/resume", "resume", 1);
  }

  lemma ImagePathIsNotResume()
    ensures !IsResumeUpload(PathOf(ImageRoute))
  {
  }

  /** The position of the last `c` in `s`. */
  function LastIndexOf(s: string, c: char): (r: Option<nat>)
    ensures r.None? <==> c !in s
    ensures r.Some? ==> r.value < |s| && s[r.value] == c && c !in s[r.value + 1..]
    decreases |s|
  {
    if s == [] then None
    else if s[|s| - 1] == c then Some(|s| - 1)
    else
      var r := LastIndexOf(s[..|s| - 1], c);
      if r.Some? then assert s[r.value + 1..] == s[..|s| - 1][r.value + 1..] + [s[|s| - 1]]; r else r
  }

  /** Any position of `c` past which `c` does not occur is the last one. */
  lemma LastIndexOfAt(s: string, c: char, i: nat)
    requires i < |s| && s[i] == c && c !in s[i + 1..]
    ensures LastIndexOf(s, c) == Some(i)
  {
  }

  /**
   * The part of a name after its last `/`, which is what `path.basename` gives
   * for a name without a trailing slash; busboy has already stripped any
   * directory part from an uploaded file's name.
   */
  function BaseName(p: string): (r: string)
    ensures '/' !in r
    ensures |r| <= |p| && r == p[|p| - |r|..]
    ensures '/' !in p ==> r == p
  {
    match LastIndexOf(p, '/')
    case None => p
    case Some(i) => p[i + 1..]
  }

  /**
   * `path.extname`: the base name from its last dot on; "" when the base name
   * has no dot after its first character, and for the base name "..".
   */
  function ExtName(p: string): (r: string)
    ensures var b := BaseName(p);
            r != "" ==> |r| < |b| && r == b[|b| - |r|..] && r[0] == '.' && '.' !in r[1..]
    ensures var b := BaseName(p);
            r == "" <==> b == ".." || forall k :: 1 <= k < |b| ==> b[k] != '.'
  {
    Extension(BaseName(p))
  }

  /** The extension `path.extname` reads off a base name. */
  function Extension(base: string): (r: string)
    ensures r != "" ==> |r| < |base| && r == base[|base| - |r|..] && r[0] == '.' && '.' !in r[1..]
    ensures r == "" <==> base == ".." || forall k :: 1 <= k < |base| ==> base[k] != '.'
  {
    match LastIndexOf(base, '.')
    case None =>
      assert forall k :: 1 <= k < |base| ==> base[k] != '.';
      ""
    case Some(i) =>
      if i == 0 then NoDotAfterFirst(base); ""
      else if base == ".." then ""
      else DotSuffix(base, i); base[i..]
  }

  /** A name whose last dot, if any, is its first character has no dot after it. */
  lemma NoDotAfterFirst(base: string)
    requires LastIndexOf(base, '.') == Some(0)
    ensures forall k :: 1 <= k < |base| ==> base[k] != '.'
  {
    assert forall k :: 1 <= k < |base| ==> base[k] == base[1..][k - 1];
  }

  /** The part of a name from its last dot on, when that dot is not first. */
  lemma DotSuffix(base: string, i: nat)
    requires LastIndexOf(base, '.') == Some(i) && i != 0
    ensures var r := base[i..];
            && |r| < |base| && r == base[|base| - |r|..] && r[0] == '.' && '.' !in r[1..]
            && exists k :: 1 <= k < |base| && base[k] == '.'
  {
    assert base[i..][1..] == base[i + 1..];
    assert base[i] == '.';
  }

  /** The `filename` callback: the generated id followed by the original extension. */
  function StoredName(id: string, originalname: string): (r: string)
    ensures |r| >= |id| && r[..|id|] == id && r[|id|..] == ExtName(originalname)
  {
    id + ExtName(originalname)
  }

  /** The stored name keeps the original extension, for an id free of dots and slashes. */
  lemma StoredNameKeepsExtension(id: string, originalname: string)
    requires id != "" && '.' !in id && '/' !in id
    ensures ExtName(StoredName(id, originalname)) == ExtName(originalname)
  {
    var e := ExtName(originalname);
    var s := id + e;
    assert s == StoredName(id, originalname);
    NoSlashAdded(id, e, BaseName(originalname));
    assert BaseName(s) == s;
    IdThenExtension(id, e);
  }

  /** Appending a suffix of a slash-free name to a slash-free id adds no slash. */
  lemma NoSlashAdded(id: string, e: string, b: string)
    requires '/' !in id && '/' !in b && |e| <= |b| && e == b[|b| - |e|..]
    ensures '/' !in id + e
  {
    var s := id + e;
    forall k | 0 <= k < |s| ensures s[k] != '/' {
      if k >= |id| { assert s[k] == e[k - |id|] == b[|b| - |e| + k - |id|]; }
    }
  }

  /** A dot-free id followed by an extension has that extension. */
  lemma IdThenExtension(id: string, e: string)
    requires id != "" && '.' !in id
    requires e != "" ==> e[0] == '.' && '.' !in e[1..]
    ensures Extension(id + e) == e
  {
    var s := id + e;
    if e == "" {
      assert s == id;
      assert LastIndexOf(s, '.').None?;
    } else {
      assert s[|id|] == '.';
      assert s[|id| + 1..] == e[1..];
      LastIndexOfAt(s, '.', |id|);
      assert s != ".." by { assert s[0] == id[0] != '.'; }
      assert s[|id|..] == e;
    }
  }


  datatype Route = ImageRoute | ResumeRoute

  /** The route's path below `/api/upload` and the form field `upload.single` reads. */
  function PathOf(route: Route): string {
    match route
    case ImageRoute => "/"
    case ResumeRoute => "/resume"
  }

  function FieldOf(route: Route): string {
    match route
    case ImageRoute => "image"
    case ResumeRoute => "resume"
  }

  datatype IncomingFile = IncomingFile(field: string, mimetype: string, originalname: string, size: nat)

  /**
   * What the client gets.  A filter or size error reaches Express's default
   * error handler, which answers 500; `error` is the error's message.
   */
  datatype UploadReply =
    | Url200(url: string)
    | NoFile400(message: string)
    | Failed500(error: string)
    | Refused(gate: Auth.Outcome)

  /** `upload.single(field)` followed by the route handler. */
  function Receive(route: Route, file: Option<IncomingFile>, id: string): (r: UploadReply)
    ensures file.None? ==> r == NoFile400(NoFile)
    ensures r.Url200? <==>
              && file.Some? && file.value.field == FieldOf(route)
              && FileFilter(PathOf(route), file.value.mimetype).Accept?
              && file.value.size <= MaxFileSize
    ensures r.Url200? ==> r.url == UrlPrefix + StoredName(id, file.value.originalname)
    ensures file.Some? && !r.Url200? ==> r.Failed500?
    ensures file.Some? && file.value.field != FieldOf(route) ==> r == Failed500("Unexpected field")
    ensures file.Some? && file.value.field == FieldOf(route) && FileFilter(PathOf(route), file.value.mimetype).Reject? ==>
              r == Failed500(FileFilter(PathOf(route), file.value.mimetype).message)
    ensures (&& file.Some? && file.value.field == FieldOf(route)
             && FileFilter(PathOf(route), file.value.mimetype).Accept? && file.value.size > MaxFileSize)
            ==> r == Failed500("File too large")
  {
    match file
    case None => NoFile400(NoFile)
    case Some(f) =>
      if f.field != FieldOf(route) then Failed500("Unexpected field")
      else match FileFilter(PathOf(route), f.mimetype)
        case Reject(message) => Failed500(message)
        case Accept =>
          if f.size > MaxFileSize then Failed500("File too large")
          else Url200(UrlPrefix + StoredName(id, f.originalname))
  }

  /** Both routes sit behind the token gate: nothing is received from a caller it refuses. */
  function Post(route: Route, header: Option<string>, jwtSecret: Option<string>, verify: Auth.Verifier,
                file: Option<IncomingFile>, id: string): (r: UploadReply)
    ensures r.Refused? <==> !Auth.Authenticate(header, jwtSecret, verify).Proceed?
    ensures !r.Refused? ==> r == Receive(route, file, id)
  {
    var gate := Auth.Authenticate(header, jwtSecret, verify);
    if gate.Proceed? then Receive(route, file, id) else Refused(gate)
  }

  /** The resume route stores exactly the PDFs within the size limit, under the id with the original extension. */
  lemma ResumeRouteTypes(id: string, f: IncomingFile)
    requires f.field == FieldOf(ResumeRoute) && f.size <= MaxFileSize
    ensures f.mimetype in DocTypes ==> Receive(ResumeRoute, Some(f), id) == Url200(UrlPrefix + id + ExtName(f.originalname))
    ensures f.mimetype !in DocTypes ==> Receive(ResumeRoute, Some(f), id) == Failed500(PdfOnly)
  {
    ResumePathIsResume();
    assert FileFilter(PathOf(ResumeRoute), f.mimetype) == if f.mimetype in DocTypes then Accept else Reject(PdfOnly);
    assert UrlPrefix + StoredName(id, f.originalname) == UrlPrefix + id + ExtName(f.originalname);
  }

  /** The image route stores the three image types and refuses anything else, a PDF included. */
  lemma ImageRouteTypes(id: string, f: IncomingFile)
    requires f.field == FieldOf(ImageRoute) && f.size <= MaxFileSize
    ensures f.mimetype in ImageTypes ==> Receive(ImageRoute, Some(f), id) == Url200(UrlPrefix + id + ExtName(f.originalname))
    ensures f.mimetype !in ImageTypes ==> Receive(ImageRoute, Some(f), id) == Failed500(ImagesOnly)
  {
    ImagePathIsNotResume();
    assert FileFilter(PathOf(ImageRoute), f.mimetype) == if f.mimetype in ImageTypes then Accept else Reject(ImagesOnly);
    assert UrlPrefix + StoredName(id, f.originalname) == UrlPrefix + id + ExtName(f.originalname);
  }
}
