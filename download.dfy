/** The decision logic of the POST /download handler (app.py:40-130), with
    its effects turned into inputs: the request's "url" field, how yt_dlp's
    extract_info ended, and the names present in the downloads directory
    afterwards. The handler becomes a function from those inputs to the HTTP
    status and JSON body it returns. */
module DownloadHandler {
  import opened Wrappers
  import opened Strings

  /** A value of yt-dlp's info dictionary: a string, or Python's None. */
  datatype Field = Null | Str(s: string)

  /** The info dictionary; an absent key is not in the map. */
  type Info = map<string, Field>

  /** How `ydl.extract_info(url, download=True)` ended. */
  datatype Extraction =
    | Extracted(info: Info)          // returned the info dictionary
    | DownloadError(message: string) // raised yt_dlp.utils.DownloadError; str(e)
    | Raised(message: string)        // raised any other exception; str(e)

  /** The JSON body of a response. */
  datatype Body =
    | Error(error: string)
    | Video(video: string, title: Field, author: Field, thumbnail: Field,
            filename: string, caption: string)

  datatype Response = Response(status: int, body: Body)

  const NO_URL := "No URL provided"
  const INVALID_URL := "Invalid TikTok URL"
  const FILE_NOT_FOUND := "Video download failed - file not found"
  const PRIVATE_VIDEO := "This video is private and cannot be downloaded"
  const VIDEO_UNAVAILABLE := "Video not found or unavailable"
  const DOWNLOAD_FAILED := "Download failed: "
  const INTERNAL_ERROR := "Internal server error: "
  const NO_CAPTION := "No caption available"

  // ---------------------------------------------------------------------
  // URL validation (app.py:46-57)

  /** Both short-link hosts contain the main domain, so testing for them
      after "tiktok.com" adds nothing. */
  lemma ShortLinkHostsContainDomain(url: string)
    ensures Contains(url, "vm.tiktok.com") ==> Contains(url, "tiktok.com")
    ensures Contains(url, "vt.tiktok.com") ==> Contains(url, "tiktok.com")
  {
    assert "vm.tiktok.com" == "vm." + "tiktok.com";
    assert "vt.tiktok.com" == "vt." + "tiktok.com";
    if Contains(url, "vm.tiktok.com") {
      ContainsSuffix(url, "vm.", "tiktok.com");
    }
    if Contains(url, "vt.tiktok.com") {
      ContainsSuffix(url, "vt.", "tiktok.com");
    }
  }

  /** The domain check as written, with its three substring tests: it accepts
      exactly the URLs in which "tiktok.com" occurs. */
  function IsTikTokUrl(url: string): (ok: bool)
    ensures ok <==> Contains(url, "tiktok.com")
  {
    ShortLinkHostsContainDomain(url);
    Contains(url, "tiktok.com") || Contains(url, "vm.tiktok.com") || Contains(url, "vt.tiktok.com")
  }

  // ---------------------------------------------------------------------
  // Reading the info dictionary (app.py:78-84)

  /** `info.get(key, default)`: the default stands in for an absent key only,
      not for a key whose value is None. */
  function Get(info: Info, key: string, default: string): (f: Field)
    ensures key in info ==> f == info[key]
    ensures key !in info ==> f == Str(default)
  {
    if key in info then info[key] else Str(default)
  }

  /** `info.get(key)`: an absent key reads as None. */
  function GetOrNone(info: Info, key: string): (f: Field)
    ensures key in info ==> f == info[key]
    ensures key !in info ==> f == Null
  {
    if key in info then info[key] else Null
  }

  /** Python's truth value of a field: None and "" are false. */
  predicate Truthy(f: Field) {
    f.Str? && f.s != []
  }

  /** `fields[0] or fields[1] or ... or fallback`. */
  function FirstTruthy(fields: seq<Field>, fallback: string): string {
    if fields == [] then fallback
    else if Truthy(fields[0]) then fields[0].s
    else FirstTruthy(fields[1..], fallback)
  }

  /** The chain gives the first true value, or the fallback when none is. */
  lemma {:induction false} FirstTruthySpec(fields: seq<Field>, fallback: string)
    ensures forall k :: 0 <= k < |fields| && Truthy(fields[k]) && (forall j :: 0 <= j < k ==> !Truthy(fields[j]))
              ==> FirstTruthy(fields, fallback) == fields[k].s
    ensures (forall k :: 0 <= k < |fields| ==> !Truthy(fields[k])) ==> FirstTruthy(fields, fallback) == fallback
  {
    if fields != [] && !Truthy(fields[0]) {
      var rest := fields[1..];
      FirstTruthySpec(rest, fallback);
      assert forall k :: 1 <= k < |fields| ==> fields[k] == rest[k - 1];
      forall k | 0 <= k < |fields| && Truthy(fields[k]) && (forall j :: 0 <= j < k ==> !Truthy(fields[j]))
        ensures FirstTruthy(fields, fallback) == fields[k].s
      {
        assert k > 0 && forall j :: 0 <= j < k - 1 ==> !Truthy(rest[j]) by {
          forall j | 0 <= j < k - 1 ensures !Truthy(rest[j]) {
            assert rest[j] == fields[j + 1];
          }
        }
      }
    }
  }

  /** The caption: the description, else the alternative title, else the raw
      title (not the "TikTok Video" default), else a fixed text. It is never
      empty. */
  function Caption(info: Info): (c: string)
    ensures c != []
    ensures var d, a, t := GetOrNone(info, "description"), GetOrNone(info, "alt_title"), GetOrNone(info, "title");
      && (Truthy(d) ==> c == d.s)
      && (!Truthy(d) && Truthy(a) ==> c == a.s)
      && (!Truthy(d) && !Truthy(a) && Truthy(t) ==> c == t.s)
      && (!Truthy(d) && !Truthy(a) && !Truthy(t) ==> c == NO_CAPTION)
  {
    var d, a, t := GetOrNone(info, "description"), GetOrNone(info, "alt_title"), GetOrNone(info, "title");
    var fields := [d, a, t];
    FirstTruthySpec(fields, NO_CAPTION);
    assert fields[0] == d && fields[1] == a && fields[2] == t;
    assert !Truthy(d) ==> forall j :: 0 <= j < 1 ==> !Truthy(fields[j]);
    assert !Truthy(d) && !Truthy(a) ==> forall j :: 0 <= j < 2 ==> !Truthy(fields[j]);
    FirstTruthy(fields, NO_CAPTION)
  }

  /** With no description, alternative title or title, the caption is the
      fixed text, although the reported title falls back to "TikTok Video". */
  lemma CaptionIgnoresTitleDefault(info: Info)
    requires !Truthy(GetOrNone(info, "description")) && !Truthy(GetOrNone(info, "alt_title"))
    requires "title" !in info
    ensures Caption(info) == NO_CAPTION
    ensures Get(info, "title", "TikTok Video") == Str("TikTok Video")
  {
  }

  /** A field as an f-string prints it: None prints as "None". */
  function Format(f: Field): (text: string)
    ensures f.Null? ==> text == "None"
    ensures f.Str? ==> text == f.s
  {
    match f
    case Null => "None"
    case Str(s) => s
  }

  /** `f"{video_id}.{ext}"`, with "video" and "mp4" for absent keys; a key
      whose value is None prints as "None". */
  function Filename(info: Info): (name: string)
    ensures "id" !in info && "ext" !in info ==> name == "video.mp4"
    ensures "id" in info && info["id"].Str? && "ext" in info && info["ext"].Str? ==>
      name == info["id"].s + "." + info["ext"].s
    ensures "id" in info && info["id"].Str? && "ext" !in info ==> name == info["id"].s + ".mp4"
    ensures "id" !in info && "ext" in info && info["ext"].Str? ==> name == "video." + info["ext"].s
    ensures "id" in info && info["id"].Null? && "ext" !in info ==> name == "None.mp4"
    ensures "id" in info && info["id"].Null? && "ext" in info && info["ext"].Str? ==> name == "None." + info["ext"].s
    ensures "id" in info && info["id"].Null? && "ext" in info && info["ext"].Null? ==> name == "None.None"
    ensures "id" !in info && "ext" in info && info["ext"].Null? ==> name == "video.None"
    ensures "id" in info && info["id"].Str? && "ext" in info && info["ext"].Null? ==> name == info["id"].s + ".None"
  {
    Format(Get(info, "id", "video")) + "." + Format(Get(info, "ext", "mp4"))
  }

  /** In `id + "." + ext` with no '.' in `ext`, the last '.' stands just
      before `ext`. */
  lemma LastDot(id: string, ext: string)
    requires '.' !in ext
    ensures var s := id + "." + ext;
      s[|s| - |ext| - 1] == '.' && forall i :: |s| - |ext| <= i < |s| ==> s[i] != '.'
  {
  }

  /** Joining with '.' loses nothing when the extension has no '.'. */
  lemma DotJoinInjective(id1: string, ext1: string, id2: string, ext2: string)
    requires '.' !in ext1 && '.' !in ext2
    requires id1 + "." + ext1 == id2 + "." + ext2
    ensures id1 == id2 && ext1 == ext2
  {
    var s := id1 + "." + ext1;
    LastDot(id1, ext1);
    LastDot(id2, ext2);
    assert |ext1| == |ext2|;
    assert ext1 == s[|s| - |ext1|..] == ext2;
    assert id1 == s[..|id1|] == id2;
  }

  /** Two videos whose extensions have no '.' share a file name only when
      they have the same ID and extension. */
  lemma FilenameIdentifiesVideo(info1: Info, info2: Info)
    requires '.' !in Format(Get(info1, "ext", "mp4")) && '.' !in Format(Get(info2, "ext", "mp4"))
    requires Filename(info1) == Filename(info2)
    ensures Format(Get(info1, "id", "video")) == Format(Get(info2, "id", "video"))
    ensures Format(Get(info1, "ext", "mp4")) == Format(Get(info2, "ext", "mp4"))
  {
    DotJoinInjective(Format(Get(info1, "id", "video")), Format(Get(info1, "ext", "mp4")),
                     Format(Get(info2, "id", "video")), Format(Get(info2, "ext", "mp4")));
  }

  // ---------------------------------------------------------------------
  // The outcomes of extract_info (app.py:72-124)

  /** extract_info returned: build the file name, check that the file is
      there, and report the video's details. */
  function Succeed(info: Info, present: set<string>): (r: Response)
    ensures r.status == 200 <==> Filename(info) in present
    ensures r.status != 200 ==> r == Response(500, Error(FILE_NOT_FOUND))
    ensures r.status == 200 ==>
      && r.body.Video? && r.body.filename == Filename(info)
      && r.body.video == "/downloads/" + Filename(info) && r.body.caption == Caption(info)
    ensures r.status == 200 ==>
      && r.body.Video? && r.body.title == Get(info, "title", "TikTok Video")
      && r.body.author == Get(info, "uploader", "Unknown") && r.body.thumbnail == Get(info, "thumbnail", "")
  {
    var filename := Filename(info);
    if filename !in present then
      Response(500, Error(FILE_NOT_FOUND))
    else
      Response(200, Video("/downloads/" + filename, Get(info, "title", "TikTok Video"),
                          Get(info, "uploader", "Unknown"), Get(info, "thumbnail", ""),
                          filename, Caption(info)))
  }

  /** A DownloadError, by the substrings of its message, tested in order:
      "Private video" first, then "Video unavailable". */
  function ClassifyDownloadError(msg: string): (r: Response)
    ensures r.body.Error?
    ensures Contains(msg, "Private video") ==> r == Response(400, Error(PRIVATE_VIDEO))
    ensures r.status == 404 <==> !Contains(msg, "Private video") && Contains(msg, "Video unavailable")
    ensures r.status == 404 ==> r.body.error == VIDEO_UNAVAILABLE
    ensures !Contains(msg, "Private video") && !Contains(msg, "Video unavailable") ==>
      r == Response(400, Error(DOWNLOAD_FAILED + msg))
  {
    if Contains(msg, "Private video") then Response(400, Error(PRIVATE_VIDEO))
    else if Contains(msg, "Video unavailable") then Response(404, Error(VIDEO_UNAVAILABLE))
    else Response(400, Error(DOWNLOAD_FAILED + msg))
  }

  /** The three classifications give three different responses, so a client
      can tell a private video from any other failure. */
  lemma PrivateResponseIsDistinct(msg: string)
    ensures ClassifyDownloadError(msg) == Response(400, Error(PRIVATE_VIDEO)) <==> Contains(msg, "Private video")
  {
    if !Contains(msg, "Private video") && !Contains(msg, "Video unavailable") {
      assert PRIVATE_VIDEO[16] == 'i';
      assert (DOWNLOAD_FAILED + msg)[16] == ' ';
    }
  }

  // ---------------------------------------------------------------------
  // The handler (app.py:40-130)

  /** POST /download. `url` is the request's "url" field, `outcome` how
      extract_info ended, `present` the names in the downloads directory. */
  function Download(url: Option<string>, outcome: Extraction, present: set<string>): (r: Response)
    ensures url == None || url == Some("") ==> r == Response(400, Error(NO_URL))
    ensures url.Some? && url.value != "" && !Contains(url.value, "tiktok.com") ==> r == Response(400, Error(INVALID_URL))
    ensures r.status == 200 <==>
      url.Some? && Contains(url.value, "tiktok.com") && outcome.Extracted? && Filename(outcome.info) in present
    ensures r.status == 200 ==>
      && r.body.Video? && r.body.filename == Filename(outcome.info)
      && r.body.video == "/downloads/" + r.body.filename && r.body.caption != []
    ensures r.status == 404 ==> outcome.DownloadError? && r.body == Error(VIDEO_UNAVAILABLE)
    ensures r.status == 500 ==>
      || r.body == Error(FILE_NOT_FOUND)
      || (outcome.Raised? && r.body == Error(INTERNAL_ERROR + outcome.message))
    ensures r.status != 200 <==> r.body.Error?
    ensures r.status in {200, 400, 404, 500}
    ensures url.Some? && Contains(url.value, "tiktok.com") ==>
      r == match outcome
           case Extracted(info) => Succeed(info, present)
           case DownloadError(msg) => ClassifyDownloadError(msg)
           case Raised(msg) => Response(500, Error(INTERNAL_ERROR + msg))
  {
    if url.None? || url.value == "" then
      Response(400, Error(NO_URL))
    else if !IsTikTokUrl(url.value) then
      Response(400, Error(INVALID_URL))
    else
      match outcome
      case Extracted(info) => Succeed(info, present)
      case DownloadError(msg) => ClassifyDownloadError(msg)
      case Raised(msg) => Response(500, Error(INTERNAL_ERROR + msg))
  }

  /** A missing or empty URL, or one without "tiktok.com", is rejected before
      extraction: the response does not depend on what extraction would do. */
  lemma RejectedBeforeExtraction(url: Option<string>, o1: Extraction, p1: set<string>, o2: Extraction, p2: set<string>)
    requires url.None? || !Contains(url.value, "tiktok.com")
    ensures Download(url, o1, p1) == Download(url, o2, p2)
    ensures Download(url, o1, p1).status == 400
  {
  }
}
