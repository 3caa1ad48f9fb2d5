# TikTok download relay: the decision core in Dafny

The service (`app.py`) is a FastAPI application with one useful endpoint,
`POST /download`. It takes a TikTok URL, has `yt_dlp` download the video into
a `downloads` directory that is served at `/downloads`, and answers with the
video's details or an error. The file also defines `extract_tiktok_id`, which
reads the numeric or short-link video ID out of a URL; the handler never calls it.

This project models the deterministic part of that file:

- `TikTokId` (`tiktok_id.dfy`): `extract_tiktok_id`. Each of its four
  regular expressions has a hand-written matcher. `Search` is `re.search`:
  the leftmost position where a matcher succeeds. `FirstMatch` is the loop
  over the pattern list.
- `DownloadHandler` (`download.dfy`): the handler as a pure function. Its
  inputs are the request's `url` field, how `extract_info` ended (an info
  dictionary, a `DownloadError` message or another exception's message) and
  the set of names present in the downloads directory afterwards. Its output
  is the HTTP status and the JSON body.
- `Strings` (`strings.dfy`): Python's `in` on strings, the ASCII character
  classes, and `RunEnd`, the end of a greedy run of one class.
- `Scenarios` (`scenarios.dfy`): whole requests worked through the model.
- `Wrappers` (`wrappers.dfy`): `Option`, standing for Python's `None`.

Info dictionary values are `Field = Null | Str(s)`. `info.get(key, default)`
uses the default only when the key is absent. So a key that is present with
value `None` gives a JSON `null` title. In the file name it prints as `None`.

A private video is answered with 400 (app.py:110-114). A `DownloadError` is
classified by the case-sensitive substrings `Private video` and
`Video unavailable`, tested in that order (app.py:110-124).

## Model

| member | source | states |
|---|---|---|
| `Strings.RunEnd` | app.py:28-31 | where a greedy `\d+`, `\w+` or `[\w\.-]+` stops: every character before the end is in the class, and the character at the end is not in it (or the string has ended) |
| `TikTokId.LiteralThenGroup` | app.py:29-31 | a literal then `(cls+)`: it succeeds only if the literal occurs at the position. The group starts right after the literal and is a non-empty, maximal run of the class. It fails exactly when the literal is missing or no class character follows it |
| `TikTokId.UserNameRunEnd` | app.py:28 | when `/video/` follows a run of user-name characters after `tiktok.com/@`, the greedy `[\w\.-]+` stops exactly at that `/video/` |
| `TikTokId.MatchVideoPage` | app.py:28 | `tiktok\.com/@[\w\.-]+/video/(\d+)` at a position: a match needs `tiktok.com/@` there, a non-empty run of user-name characters, then `/video/`, and its group is the non-empty, maximal digit run after it. It fails only when every such `/video/` is followed by a non-digit or the end of the URL |
| `TikTokId.MatchAt` | app.py:27-31 | any of the four patterns at a position: a match needs the pattern's literal (`tiktok.com/@`, `tiktok.com/v/`, `vm.tiktok.com/`, `vt.tiktok.com/`) there. The group starts after the position and is a non-empty, maximal run of that pattern's capture class (digits for the first two patterns, word characters for the last two) |
| `TikTokId.LiteralPatternMatch` | app.py:29-31 | the `/v/`, `vm.` and `vt.` patterns match at a position exactly when their literal is there and a character of the capture class follows it; the group then starts right after the literal |
| `TikTokId.Search` | app.py:35 | `re.search` finds the leftmost match: the returned start matches, and no earlier position does. It returns nothing only if no position matches |
| `TikTokId.SearchFinds` | app.py:35 | if a pattern matches at p and at no earlier position, the search returns exactly the match at p |
| `TikTokId.Captured` | app.py:37 | `match.group(1)` is the URL's characters from the group's start to its end, in order |
| `TikTokId.FirstMatchNone` | app.py:34-38 | the loop `FirstMatch` returns None exactly when no pattern in the list matches anywhere in the URL |
| `TikTokId.FirstMatchSome` | app.py:34-38 | when the loop `FirstMatch` returns an ID, it is the capture of some pattern k that matches while every pattern before k does not |
| `TikTokId.ExtractTikTokId` | app.py:25-38 | `extract_tiktok_id` tries the video-page pattern first, then `/v/`, then `vm.`, then `vt.`. A later pattern's capture is returned only when every earlier pattern found nothing. The result is None exactly when none of the four matches anywhere in the URL |
| `TikTokId.CapturedShape` | app.py:28-37 | the group of a successful search is a non-empty run of the pattern's capture class |
| `TikTokId.ExtractedIdShape` | app.py:28-37 | any returned ID is non-empty and made of word characters. It is made of digits when the video-page or `/v/` pattern matched |
| `TikTokId.NoVideoPageBefore` | app.py:28-35 | when the URL has no '@' before an occurrence of `tiktok.com/@`, the video-page pattern cannot match before that occurrence |
| `TikTokId.VideoPageMatch` | app.py:28 | after `tiktok.com/@`, a run of user-name characters and `/video/`, the video-page pattern captures exactly the maximal digit run |
| `TikTokId.VideoPageId` | app.py:28-37 | for a URL `a + "tiktok.com/@" + user + "/video/" + digits + rest`, with no '@' in `a`, the ID is `digits`, the whole digit run after `/video/` |
| `Strings.ContainsSuffix` | app.py:53 | Python's `t in s` (`Contains`): whatever contains `p + t` contains `t` |
| `Strings.ContainsInContext` | app.py:110-115 | a substring test succeeds wherever in the message the text occurs: text around the string does not hide a substring (this is how `Scenarios.PrivateWinsOverUnavailable` finds `Private video`) |
| `DownloadHandler.ShortLinkHostsContainDomain` | app.py:53 | a URL containing `vm.tiktok.com` or `vt.tiktok.com` contains `tiktok.com` |
| `DownloadHandler.IsTikTokUrl` | app.py:53-57 | the three-way domain test accepts a URL exactly when `tiktok.com` occurs in it |
| `DownloadHandler.Get` | app.py:78-82 | `info.get(key, default)`: the stored value when the key is present, even when that value is None; the default only when the key is absent |
| `DownloadHandler.GetOrNone` | app.py:84 | `info.get(key)`: the stored value when the key is present, None when it is absent |
| `DownloadHandler.Format` | app.py:87 | an f-string prints None as `None` and a string as itself |
| `DownloadHandler.FirstTruthySpec` | app.py:84 | a chain of `or` gives the first non-empty string, or the fallback when every value is None or empty |
| `DownloadHandler.Caption` | app.py:84 | the caption is never empty. It is the description, else the alternative title, else the raw title, else `No caption available` |
| `DownloadHandler.CaptionIgnoresTitleDefault` | app.py:80-84 | with no description, alternative title or title, the caption is `No caption available`, while the reported title is the default `TikTok Video` |
| `DownloadHandler.Filename` | app.py:78-87 | the file name is `id + "." + ext` when yt-dlp reports both as strings, `id + ".mp4"` with no extension, `"video." + ext` with no ID, and `video.mp4` with neither. A None value prints as `None`: `None.mp4`, `None.` + ext, `None.None`, `video.None` and `id + ".None"` for the five combinations with a None |
| `DownloadHandler.DotJoinInjective` | app.py:87 | `id + "." + ext` determines `id` and `ext` when the extensions contain no '.' |
| `DownloadHandler.FilenameIdentifiesVideo` | app.py:78-87 | two videos whose extensions have no '.' get the same file name only if they have the same ID and extension |
| `DownloadHandler.Succeed` | app.py:77-106 | 200 exactly when the file named from the info is present, and otherwise 500 `Video download failed - file not found`. On 200, `video` is `/downloads/` + filename and the filename is the one built from the info. The title, uploader and thumbnail use the defaults `TikTok Video`, `Unknown` and the empty string |
| `DownloadHandler.ClassifyDownloadError` | app.py:108-124 | always an error body. `Private video` anywhere in the message gives 400 with the private-video text, whatever else the message says. 404 comes exactly when `Video unavailable` occurs without `Private video`. Otherwise the answer is 400 `Download failed: ` + message |
| `DownloadHandler.PrivateResponseIsDistinct` | app.py:110-124 | the private-video response is given exactly when the message contains `Private video` |
| `DownloadHandler.Download` | app.py:40-130 | a missing or empty URL gives 400 `No URL provided`; a URL without `tiktok.com` gives 400 `Invalid TikTok URL`. The status is 200 exactly when the URL contains `tiktok.com`, extraction returned info and the file is present; then `video` is `/downloads/` + filename and the caption is non-empty. 404 only comes from a `DownloadError`, and 500 only from a missing file or another exception (`Internal server error: ` + message). The status is always one of 200, 400, 404, 500, and the body is an error exactly when the status is not 200. Once the URL passes validation, the response is exactly `Succeed` on returned info, `ClassifyDownloadError` on a `DownloadError`, and 500 `Internal server error: ` + message on any other exception |
| `DownloadHandler.RejectedBeforeExtraction` | app.py:46-57 | for a missing URL, or one without `tiktok.com`, the response is 400 and does not depend on the extraction outcome or the directory contents |
| `Scenarios.CanonicalUrlId` | app.py:25-38 | `extract_tiktok_id("https://www.tiktok.com/@user/video/1234567890123456789")` is `1234567890123456789` |
| `Scenarios.DownloadSucceeds` | app.py:78-106 | info `{id, ext: mp4, title: T, uploader: U}` with the file present gives 200, `1234567890123456789.mp4` at `/downloads/1234567890123456789.mp4`, author `U`, an empty thumbnail and caption `T` |
| `Scenarios.PrivateWinsOverUnavailable` | app.py:108-114 | a `DownloadError` whose message holds `Private video` and then `Video unavailable` is answered 400 with the private-video text |

## Left out

- The FastAPI application, CORS middleware, static mount of `/downloads` and the `/health` endpoint (app.py:9-23, 132-134): framework plumbing.
- Creating the downloads directory (app.py:18-20): file-system I/O.
- The `yt_dlp` options and the `extract_info` call (app.py:59-75): a foreign library. How the call ended is an input of `Download`.
- `os.path.join` and `os.path.exists` (app.py:88-91): the set of names present in the downloads directory stands in for them. What a name with '/' in it, or an absolute one, would mean to `os.path.join` is not modelled.
- Parsing the request body (app.py:43): the `url` field is an optional string. The model covers no other kind of `url`. A body that is not JSON raises, and the catch-all answers 500 (app.py:126-130). A falsy non-string `url` (`0`, `false`, `[]`, `{}`) gets 400 `No URL provided` (app.py:46-50). A JSON body that is not an object (an array, a string, a number or `null`) makes `data.get` at app.py:44 raise `AttributeError`, answered 500 by the catch-all. A non-empty JSON array or object as `url` goes through the three membership tests of app.py:53 on its elements or keys. It gets 400 `Invalid TikTok URL` (app.py:54-57) when no element or key is `"tiktok.com"`, `"vm.tiktok.com"` or `"vt.tiktok.com"`, and otherwise goes on to `extract_info`. A truthy number or `true` makes that test raise `TypeError`, answered 500 by the catch-all. It keeps the catch-all only for exceptions other than `DownloadError` raised by the extraction.
- Info dictionary values other than strings and None (numbers, lists): yt-dlp's `id`, `ext`, `title`, `uploader`, `thumbnail`, `description` and `alt_title` are strings or absent.
- Unicode: `\w` and `\d` are taken as ASCII (letters, digits, underscore; the ten digits), where Python's `re` on `str` also matches other Unicode letters and digits.
- `TikTokId.VideoPageId`: stated only for URLs with no '@' before `tiktok.com/@`. This is a sufficient condition for that occurrence to be the leftmost match; the general case follows from `Search` and `FirstMatch`.
