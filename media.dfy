/** The gallery and video stories page of `src/pages/Media.tsx`: a category filter over
    the gallery, a lightbox that steps through the filtered images, and the form through
    which a signed-in visitor uploads a video story for approval. */
module Media {
  import opened Common

  datatype GalleryImage = GalleryImage(src: string, alt: string, category: string)

  /** The category tab "all" shows everything. */
  const All := "all"

  function InCategory(c: string): GalleryImage -> bool
  {
    (img: GalleryImage) => img.category == c
  }

  /** `filteredImages`. */
  function FilteredImages(images: seq<GalleryImage>, category: string): (r: seq<GalleryImage>)
    ensures category == All ==> r == images
    ensures category != All ==> r == Filter(images, InCategory(category))
    ensures category != All ==> forall img :: img in r <==> img in images && img.category == category
  {
    if category == All then images else Filter(images, InCategory(category))
  }

  datatype Direction = Prev | Next

  /** The index `navigateLightbox` computes over `n` images; with no image the division
      by zero gives no index (`NaN`). */
  function Step(i: int, n: int, d: Direction): (r: Option<int>)
    ensures n <= 0 <==> r.None?
    ensures n > 0 && 0 <= i < n ==> 0 <= r.value < n
    ensures n > 0 && 0 <= i < n && d == Next ==> r.value == (if i + 1 == n then 0 else i + 1)
    ensures n > 0 && 0 <= i < n && d == Prev ==> r.value == (if i == 0 then n - 1 else i - 1)
  {
    if n <= 0 then None
    else if d == Prev then
      var r := JsRem(i - 1 + n, n);
      if 0 <= i < n then ModBelowTwice(i - 1 + n, n); Some(r) else Some(r)
    else
      var r := JsRem(i + 1, n);
      if 0 <= i < n then ModBelowTwice(i + 1, n); Some(r) else Some(r)
  }

  /** The remainder by n of a number in [0, 2n). */
  lemma ModBelowTwice(a: int, n: int)
    requires n > 0 && 0 <= a < 2 * n
    ensures a % n == (if a < n then a else a - n)
  {
    if a >= n {
      assert a == (a - n) + n * 1;
    }
  }

  /** Stepping back undoes stepping forward, and forward undoes back. */
  lemma StepInverse(i: int, n: int)
    requires 0 <= i < n
    ensures Step(Step(i, n, Next).value, n, Prev) == Some(i)
    ensures Step(Step(i, n, Prev).value, n, Next) == Some(i)
  {
  }

  /** `e.target.files?.[0]` is accepted when at most 50 MiB and an MP4, WebM or QuickTime
      video. */
  const MaxVideoBytes := 50 * 1024 * 1024
  const VideoTypes := ["video/mp4", "video/webm", "video/quicktime"]

  function VideoError(f: File): (e: Option<string>)
    ensures e.None? <==> f.size <= 52428800 && f.mimeType in {"video/mp4", "video/webm", "video/quicktime"}
    ensures f.size > MaxVideoBytes ==> e == Some("Video must be under 50MB")
  {
    if f.size > MaxVideoBytes then Some("Video must be under 50MB")
    else if f.mimeType !in VideoTypes then Some("Only MP4, WebM, or MOV formats allowed")
    else None
  }

  /** `name.split('.').pop()`: the text after the last dot, or the whole name when it has
      none. */
  function FileExtension(name: string): string
  {
    if name == [] then []
    else if name[|name| - 1] == '.' then []
    else
      var rest := FileExtension(name[..|name| - 1]);
      if |rest| < |name| - 1 then rest + [name[|name| - 1]] else name
  }

  /** The extension is the dot-free tail of the name, preceded by a dot unless it is the
      whole name. */
  lemma {:induction false} FileExtensionMeaning(name: string)
    ensures var ext := FileExtension(name);
      && |ext| <= |name| && ext == name[|name| - |ext|..]
      && '.' !in ext
      && (|ext| < |name| ==> name[|name| - |ext| - 1] == '.')
  {
    if name != [] && name[|name| - 1] != '.' {
      var init, last := name[..|name| - 1], name[|name| - 1];
      assert name == init + [last];
      FileExtensionMeaning(init);
      var rest := FileExtension(init);
      if |rest| < |init| {
        assert init[|init| - |rest|..] + [last] == name[|name| - |rest| - 1..];
        assert name[|name| - |rest| - 2] == init[|init| - |rest| - 1];
      } else {
        assert rest == init;
      }
    }
  }

  /** `s.trim() || null`. */
  function NullIfBlank(s: string): (r: Option<string>)
    ensures r.None? <==> Trim(s) == []
    ensures r.Some? ==> r.value == Trim(s)
  {
    if Trim(s) == [] then None else Some(Trim(s))
  }

  /** A field is sent as null exactly when it is all white space; otherwise it is sent
      trimmed, which is neither empty nor starts or ends with white space. */
  lemma NullIfBlankMeaning(s: string)
    ensures NullIfBlank(s).None? <==> forall i :: 0 <= i < |s| ==> IsJsSpace(s[i])
    ensures NullIfBlank(s).Some? ==>
      var v := NullIfBlank(s).value;
      v != [] && !IsJsSpace(v[0]) && !IsJsSpace(v[|v| - 1])
  {
    TrimEmptyIffBlank(s);
    var t := TrimStart(s);
    var v := TrimEnd(t);
    TrimStartShape(s);
    TrimEndShape(t);
    assert v != [] ==> v[0] == t[0];
  }

  datatype UploadForm = UploadForm(title: string, description: string, customerName: string, experienceType: string)

  const EmptyUpload := UploadForm("", "", "", "")

  /** The row inserted into `video_testimonials`. */
  datatype VideoRow = VideoRow(title: string, description: Option<string>, videoUrl: string,
                               customerName: Option<string>, experienceType: Option<string>,
                               uploadedBy: string, isApproved: bool)

  /** The row a submitted form becomes: the title trimmed, the optional fields trimmed or
      null, and the story waiting for approval. */
  function RowFor(form: UploadForm, videoUrl: string, userId: string): VideoRow
  {
    VideoRow(Trim(form.title), NullIfBlank(form.description), videoUrl,
             NullIfBlank(form.customerName), NullIfBlank(form.experienceType), userId, false)
  }

  /** What a row that passed the title check looks like: a title without surrounding
      white space, each optional field null exactly when it was left blank, and the story
      not yet approved. */
  lemma RowForShape(form: UploadForm, videoUrl: string, userId: string)
    requires Trim(form.title) != []
    ensures var row := RowFor(form, videoUrl, userId);
      && row.title != [] && !IsJsSpace(row.title[0]) && !IsJsSpace(row.title[|row.title| - 1])
      && (row.description.None? <==> forall i :: 0 <= i < |form.description| ==> IsJsSpace(form.description[i]))
      && (row.customerName.None? <==> forall i :: 0 <= i < |form.customerName| ==> IsJsSpace(form.customerName[i]))
      && (row.experienceType.None? <==> forall i :: 0 <= i < |form.experienceType| ==> IsJsSpace(form.experienceType[i]))
      && !row.isApproved && row.uploadedBy == userId
  {
    NullIfBlankMeaning(form.title);
    NullIfBlankMeaning(form.description);
    NullIfBlankMeaning(form.customerName);
    NullIfBlankMeaning(form.experienceType);
  }

  /** Where the video is stored: `<user>/<timestamp>.<extension>`. */
  function StoragePath(userId: string, stamp: string, fileName: string): string
  {
    userId + "/" + stamp + "." + FileExtension(fileName)
  }

  /** A dot-free text after a dot is read back as the extension. */
  lemma {:induction false} ExtensionAfterDot(a: string, ext: string)
    requires '.' !in ext
    ensures FileExtension(a + "." + ext) == ext
  {
    var name := a + "." + ext;
    if ext != [] {
      var init := ext[..|ext| - 1];
      assert name[..|name| - 1] == a + "." + init;
      assert name[|name| - 1] == ext[|ext| - 1];
      assert ext[|ext| - 1] in ext;
      assert forall c :: c in init ==> c in ext;
      ExtensionAfterDot(a, init);
      assert init + [ext[|ext| - 1]] == ext;
    }
  }

  /** The storage path sits in the uploader's folder, and its own extension is the
      chosen file's. */
  lemma StoragePathShape(userId: string, stamp: string, fileName: string)
    ensures var path := StoragePath(userId, stamp, fileName);
      && |path| > |userId| && path[..|userId| + 1] == userId + "/"
      && FileExtension(path) == FileExtension(fileName)
  {
    FileExtensionMeaning(fileName);
    ExtensionAfterDot(userId + "/" + stamp, FileExtension(fileName));
    assert userId + "/" + stamp + "." + FileExtension(fileName)
      == (userId + "/") + (stamp + "." + FileExtension(fileName));
  }

  /** How an upload attempt ends. */
  datatype UploadOutcome = Refused(reason: string) | Failed(message: string) | Uploaded

  /** `error.message || "Failed to upload video"`. */
  function FailureText(message: string): (text: string)
    ensures text != []
    ensures message != [] ==> text == message
    ensures message == [] ==> text == "Failed to upload video"
  {
    if message == "" then "Failed to upload video" else message
  }

  /** The checks made before any remote call: a signed-in user, a chosen video, a title
      that is not blank; the first failing one gives the message shown. */
  function UploadRefusal(userId: Option<string>, video: Option<File>, form: UploadForm): (r: Option<string>)
    ensures r.None? <==> userId.Some? && video.Some? && Trim(form.title) != []
    ensures userId.None? ==> r == Some("Please sign in to upload a video")
    ensures userId.Some? && video.None? ==> r == Some("Please select a video")
    ensures userId.Some? && video.Some? && Trim(form.title) == [] ==> r == Some("Please enter a title")
  {
    if userId.None? then Some("Please sign in to upload a video")
    else if video.None? then Some("Please select a video")
    else if Trim(form.title) == [] then Some("Please enter a title")
    else None
  }

  class MediaPage {
    const galleryImages: seq<GalleryImage>
    var activeCategory: string
    var lightboxImage: Option<GalleryImage>
    var lightboxIndex: int
    var playingVideoId: Option<string>
    var uploadForm: UploadForm
    var selectedVideo: Option<File>
    var isUploadDialogOpen: bool
    var isUploading: bool

    constructor(galleryImages: seq<GalleryImage>)
      ensures this.galleryImages == galleryImages && activeCategory == All
      ensures lightboxImage == None && lightboxIndex == 0 && playingVideoId == None
      ensures uploadForm == EmptyUpload && selectedVideo == None && !isUploadDialogOpen && !isUploading
    {
      this.galleryImages := galleryImages;
      activeCategory := All;
      lightboxImage := None;
      lightboxIndex := 0;
      playingVideoId := None;
      uploadForm := EmptyUpload;
      selectedVideo := None;
      isUploadDialogOpen := false;
      isUploading := false;
    }

    function Shown(): seq<GalleryImage>
      reads this
    {
      FilteredImages(galleryImages, activeCategory)
    }

    method OpenLightbox(image: GalleryImage, index: int)
      modifies this`lightboxImage, this`lightboxIndex
      ensures lightboxImage == Some(image) && lightboxIndex == index
    {
      lightboxImage := Some(image);
      lightboxIndex := index;
    }

    method CloseLightbox()
      modifies this`lightboxImage
      ensures lightboxImage == None
    {
      lightboxImage := None;
    }

    /** `navigateLightbox`: the index steps around the shown images and the lightbox shows
        the image there; over no images the lightbox ends up empty. */
    method NavigateLightbox(d: Direction)
      modifies this`lightboxImage, this`lightboxIndex
      ensures var n := |Shown()|;
        n > 0 && 0 <= old(lightboxIndex) < n ==>
          && 0 <= lightboxIndex < n
          && lightboxIndex == Step(old(lightboxIndex), n, d).value
          && lightboxImage == Some(Shown()[lightboxIndex])
      ensures var n := |Shown()|;
        n > 0 ==>
          && lightboxIndex == Step(old(lightboxIndex), n, d).value
          && lightboxImage == (if 0 <= lightboxIndex < n then Some(Shown()[lightboxIndex]) else None)
      ensures |Shown()| == 0 ==> lightboxImage == None && lightboxIndex == old(lightboxIndex)
    {
      var shown := FilteredImages(galleryImages, activeCategory);
      var next := Step(lightboxIndex, |shown|, d);
      if next.Some? {
        lightboxIndex := next.value;
        lightboxImage := if 0 <= next.value < |shown| then Some(shown[next.value]) else None;
      } else {
        lightboxImage := None;
      }
    }

    /** `handleVideoSelect`: returns the error shown, if any. */
    method HandleVideoSelect(file: Option<File>) returns (error: Option<string>)
      modifies this`selectedVideo
      ensures file.None? ==> error.None? && selectedVideo == old(selectedVideo)
      ensures file.Some? ==> error == VideoError(file.value)
      ensures file.Some? && error.Some? ==> selectedVideo == old(selectedVideo)
      ensures file.Some? && error.None? ==> selectedVideo == file
    {
      if file.None? {
        return None;
      }
      error := VideoError(file.value);
      if error.None? {
        selectedVideo := file;
      }
    }

    /** `handleUploadSubmit`. `userId` is the signed-in user, `stamp` the timestamp used in
        the file name, `uploadError` and `insertError` the messages of the two remote
        calls that failed, `publicUrl` the stored video's address. Returns the storage path
        and the row the page sent, and how it ended. */
    method HandleUploadSubmit(userId: Option<string>, stamp: string, uploadError: Option<string>,
                              publicUrl: string, insertError: Option<string>)
      returns (path: Option<string>, row: Option<VideoRow>, outcome: UploadOutcome)
      modifies this`isUploading, this`uploadForm, this`selectedVideo, this`isUploadDialogOpen
      ensures var refusal := UploadRefusal(userId, old(selectedVideo), old(uploadForm));
        && (refusal.Some? ==> outcome == Refused(refusal.value) && path.None? && row.None?)
        && (refusal.None? ==>
             && path == Some(StoragePath(userId.value, stamp, old(selectedVideo).value.name))
             && row == (if uploadError.Some? then None else Some(RowFor(old(uploadForm), publicUrl, userId.value)))
             && outcome == (if uploadError.Some? then Failed(FailureText(uploadError.value))
                            else if insertError.Some? then Failed(FailureText(insertError.value))
                            else Uploaded))
      ensures outcome.Uploaded? ==> uploadForm == EmptyUpload && selectedVideo.None? && !isUploadDialogOpen
      ensures !outcome.Uploaded? ==>
        && uploadForm == old(uploadForm) && selectedVideo == old(selectedVideo)
        && isUploadDialogOpen == old(isUploadDialogOpen)
      ensures isUploading == (if outcome.Refused? then old(isUploading) else false)
    {
      var refusal := UploadRefusal(userId, selectedVideo, uploadForm);
      if refusal.Some? {
        return None, None, Refused(refusal.value);
      }
      isUploading := true;
      path := Some(StoragePath(userId.value, stamp, selectedVideo.value.name));
      if uploadError.Some? {
        row, outcome := None, Failed(FailureText(uploadError.value));
      } else {
        row := Some(RowFor(uploadForm, publicUrl, userId.value));
        if insertError.Some? {
          outcome := Failed(FailureText(insertError.value));
        } else {
          outcome := Uploaded;
          isUploadDialogOpen := false;
          uploadForm := EmptyUpload;
          selectedVideo := None;
        }
      }
      isUploading := false;
    }

    /** `toggleVideoPlay`: the playing video stops, any other starts. */
    method ToggleVideoPlay(videoId: string)
      modifies this`playingVideoId
      ensures old(playingVideoId) == Some(videoId) ==> playingVideoId == None
      ensures old(playingVideoId) != Some(videoId) ==> playingVideoId == Some(videoId)
    {
      if playingVideoId == Some(videoId) {
        playingVideoId := None;
      } else {
        playingVideoId := Some(videoId);
      }
    }
  }

  /** Two clicks on a video that is not playing start it and stop it again, so nothing
      plays afterwards, even when another video was playing before. */
  method ToggleTwice(page: MediaPage, videoId: string)
    requires page.playingVideoId != Some(videoId)
    modifies page
    ensures page.playingVideoId == None
  {
    page.ToggleVideoPlay(videoId);
    page.ToggleVideoPlay(videoId);
  }
}
