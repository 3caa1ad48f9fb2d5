/** Whole requests worked through the model: the ID that extract_tiktok_id
    reads from a canonical video URL, and the responses of the handler for a
    successful download and for a private video. */
module Scenarios {
  import opened Wrappers
  import opened Strings
  import opened TikTokId
  import opened DownloadHandler

  const ID := "1234567890123456789"

  /** https://www.tiktok.com/@user/video/1234567890123456789 */
  const CANONICAL_URL := "https://www." + "tiktok.com/@" + "user" + "/video/" + ID

  lemma CanonicalUrlHasDomain()
    ensures Contains(CANONICAL_URL, "tiktok.com")
  {
    assert CANONICAL_URL[12..22] == "tiktok.com";
    assert OccursAt(CANONICAL_URL, 12, "tiktok.com");
  }

  /** The video ID in the canonical URL is the run of digits at its end. */
  lemma CanonicalUrlId()
    ensures ExtractTikTokId(CANONICAL_URL) == Some(ID)
  {
    var user := "user";
    forall k | 0 <= k < |user| ensures InClass(user[k], UserName) { }
    forall k | 0 <= k < |ID| ensures IsDigit(ID[k]) { }
    assert CANONICAL_URL == "https://www." + "tiktok.com/@" + user + "/video/" + ID + "";
    VideoPageId("https://www.", user, ID, "");
  }

  /** yt-dlp reports ID, extension, title and uploader and writes the file:
      the response is 200 with the file name made of ID and extension, the
      reported title and uploader, an empty thumbnail, and the title as caption. */
  lemma DownloadSucceeds()
    ensures
      var info := map["id" := Str(ID), "ext" := Str("mp4"), "title" := Str("T"), "uploader" := Str("U")];
      Download(Some(CANONICAL_URL), Extracted(info), {ID + ".mp4"})
        == Response(200, Video("/downloads/" + ID + ".mp4", Str("T"), Str("U"), Str(""), ID + ".mp4", "T"))
  {
    var info := map["id" := Str(ID), "ext" := Str("mp4"), "title" := Str("T"), "uploader" := Str("U")];
    CanonicalUrlHasDomain();
    assert Filename(info) == ID + ".mp4";
    assert "description" !in info && "alt_title" !in info && "thumbnail" !in info;
    assert Caption(info) == "T";
  }

  /** A message that mentions both "Private video" and, later, "Video
      unavailable" is reported as a private video, with status 400. */
  lemma PrivateWinsOverUnavailable(url: string, before: string, between: string, after: string, present: set<string>)
    requires Contains(url, "tiktok.com")
    ensures
      var msg := before + "Private video" + between + "Video unavailable" + after;
      Download(Some(url), DownloadError(msg), present) == Response(400, Error(PRIVATE_VIDEO))
  {
    var msg := before + "Private video" + between + "Video unavailable" + after;
    assert OccursAt("Private video", 0, "Private video");
    ContainsInContext(before, "Private video", between + "Video unavailable" + after, "Private video");
    assert msg == before + "Private video" + (between + "Video unavailable" + after);
  }
}
