/** extract_tiktok_id (app.py:25-38): the first of four URL patterns, in list
    order, that `re.search` finds anywhere in the URL gives the video ID, its
    first capture group; no match gives None. Each pattern has its own matcher
    here instead of a regular-expression engine. */
module TikTokId {
  import opened Wrappers
  import opened Strings

  /** The four patterns, in the order the source tries them. */
  datatype Pattern =
    | VideoPage  // tiktok\.com/@[\w\.-]+/video/(\d+)
    | ShortV     // tiktok\.com/v/(\d+)
    | VmShort    // vm\.tiktok\.com/([\w\d]+)
    | VtShort    // vt\.tiktok\.com/([\w\d]+)

  const PATTERNS: seq<Pattern> := [VideoPage, ShortV, VmShort, VtShort]

  /** The class of the characters the capture group takes. */
  function CaptureClass(pat: Pattern): CharClass {
    match pat
    case VideoPage | ShortV => Digits
    case VmShort | VtShort => Word
  }

  /** The span `[lo, hi)` of capture group 1 in the URL. */
  datatype Span = Span(lo: nat, hi: nat)

  /** What `re.search` returns: where the match starts, and group 1's span. */
  datatype Match = Match(start: nat, group: Span)

  /** A non-empty, maximal run of `cls` characters in `url`. */
  ghost predicate GreedyGroup(url: string, g: Span, cls: CharClass) {
    && g.lo < g.hi <= |url|
    && (forall k :: g.lo <= k < g.hi ==> InClass(url[k], cls))
    && (g.hi == |url| || !InClass(url[g.hi], cls))
  }

  /** The literal `lit` at `p`, then a greedy `(cls+)` group. */
  function LiteralThenGroup(url: string, p: nat, lit: string, cls: CharClass): (g: Option<Span>)
    ensures g.Some? ==> OccursAt(url, p, lit) && g.value.lo == p + |lit|
    ensures g.Some? ==> GreedyGroup(url, g.value, cls)
    ensures g.None? ==> !OccursAt(url, p, lit) || p + |lit| == |url| || !InClass(url[p + |lit|], cls)
  {
    if OccursAt(url, p, lit) then
      var hi := RunEnd(url, p + |lit|, cls);
      if hi > p + |lit| then Some(Span(p + |lit|, hi)) else None
    else
      None
  }

  /** A run of user-name characters from `p + 12` that is followed by
      "/video/" ends where the greedy run ends, since '/' is not a user-name
      character. */
  lemma UserNameRunEnd(url: string, p: nat)
    requires p + 12 <= |url|
    ensures forall e ::
      (&& p + 12 < e && e + 7 <= |url| && OccursAt(url, e, "/video/")
       && (forall k :: p + 12 <= k < e ==> InClass(url[k], UserName)))
      ==> RunEnd(url, p + 12, UserName) == e
  {
    forall e | p + 12 < e && e + 7 <= |url| && OccursAt(url, e, "/video/")
      && (forall k :: p + 12 <= k < e ==> InClass(url[k], UserName))
      ensures RunEnd(url, p + 12, UserName) == e
    {
      assert url[e] == url[e..e + 7][0] == '/';
      RunEndIs(url, p + 12, e, UserName);
    }
  }

  /** `tiktok\.com/@[\w\.-]+/video/(\d+)` at `p`. The user name cannot contain
      '/', so the only way `[\w\.-]+` can be followed by "/video/" is to take
      the whole run of user-name characters: backtracking never helps. A match
      is the literal, a non-empty user name, "/video/" and a maximal digit run;
      there is no match exactly when no user name followed by "/video/" and a
      digit stands after the literal. */
  function MatchVideoPage(url: string, p: nat): (g: Option<Span>)
    ensures g.Some? ==>
      && OccursAt(url, p, "tiktok.com/@") && p + 19 < g.value.lo
      && GreedyGroup(url, g.value, Digits)
      && (forall k :: p + 12 <= k < g.value.lo - 7 ==> InClass(url[k], UserName))
      && OccursAt(url, g.value.lo - 7, "/video/")
    ensures g.None? ==>
      forall e :: p + 12 < e && e + 7 < |url| && OccursAt(url, p, "tiktok.com/@")
        && (forall k :: p + 12 <= k < e ==> InClass(url[k], UserName))
        && OccursAt(url, e, "/video/")
        ==> !IsDigit(url[e + 7])
  {
    if OccursAt(url, p, "tiktok.com/@") then
      UserNameRunEnd(url, p);
      var userEnd := RunEnd(url, p + 12, UserName);
      if userEnd > p + 12 then LiteralThenGroup(url, userEnd, "/video/", Digits) else None
    else
      None
  }

  /** The literal each pattern needs where its match starts. */
  function Literal(pat: Pattern): string {
    match pat
    case VideoPage => "tiktok.com/@"
    case ShortV => "tiktok.com/v/"
    case VmShort => "vm.tiktok.com/"
    case VtShort => "vt.tiktok.com/"
  }

  /** Pattern `pat` tried at position `p` of `url` (`re.match` at `p`). A
      match needs the pattern's literal at `p`; its group is a non-empty,
      maximal run of the capture class. */
  function MatchAt(pat: Pattern, url: string, p: nat): (g: Option<Span>)
    ensures g.Some? ==> OccursAt(url, p, Literal(pat))
    ensures g.Some? ==> p < g.value.lo && GreedyGroup(url, g.value, CaptureClass(pat))
  {
    match pat
    case VideoPage => MatchVideoPage(url, p)
    case ShortV => LiteralThenGroup(url, p, Literal(ShortV), Digits)
    case VmShort => LiteralThenGroup(url, p, Literal(VmShort), Word)
    case VtShort => LiteralThenGroup(url, p, Literal(VtShort), Word)
  }

  /** The three patterns that are a literal and a group match at `p` exactly
      when the literal is there and a character of the class follows it; the
      group then starts right after the literal. */
  lemma LiteralPatternMatch(pat: Pattern, url: string, p: nat)
    requires pat != VideoPage
    ensures var lit, g := Literal(pat), MatchAt(pat, url, p);
      && (g.Some? <==> OccursAt(url, p, lit) && p + |lit| < |url| && InClass(url[p + |lit|], CaptureClass(pat)))
      && (g.Some? ==> g.value.lo == p + |lit|)
  {
  }

  /** `re.search(pat, url[from..])`: the leftmost position at or after `from`
      where the pattern matches. */
  function Search(pat: Pattern, url: string, from: nat): (m: Option<Match>)
    ensures m.Some? ==> from <= m.value.start <= |url|
    ensures m.Some? ==> MatchAt(pat, url, m.value.start) == Some(m.value.group)
    ensures m.Some? ==> forall q :: from <= q < m.value.start ==> MatchAt(pat, url, q).None?
    ensures m.None? ==> forall q :: from <= q <= |url| ==> MatchAt(pat, url, q).None?
    decreases |url| + 1 - from
  {
    if from > |url| then None
    else match MatchAt(pat, url, from)
      case Some(g) => Some(Match(from, g))
      case None => Search(pat, url, from + 1)
  }

  /** The leftmost match is the one Search returns. */
  lemma SearchFinds(pat: Pattern, url: string, p: nat, g: Span)
    requires p <= |url| && MatchAt(pat, url, p) == Some(g)
    requires forall q :: 0 <= q < p ==> MatchAt(pat, url, q).None?
    ensures Search(pat, url, 0) == Some(Match(p, g))
  {
  }

  /** `match.group(1)`. */
  function Captured(url: string, m: Match): (id: string)
    requires m.group.lo <= m.group.hi <= |url|
    ensures |id| == m.group.hi - m.group.lo
    ensures forall k :: 0 <= k < |id| ==> id[k] == url[m.group.lo + k]
  {
    url[m.group.lo..m.group.hi]
  }

  /** The `for pattern in patterns` loop: the capture of the first pattern
      that matches, consulting a pattern only when every earlier one failed. */
  function FirstMatch(pats: seq<Pattern>, url: string): Option<string> {
    if pats == [] then None
    else match Search(pats[0], url, 0)
      case Some(m) => Some(Captured(url, m))
      case None => FirstMatch(pats[1..], url)
  }

  /** The loop returns None exactly when no pattern matches. */
  lemma {:induction false} FirstMatchNone(pats: seq<Pattern>, url: string)
    ensures FirstMatch(pats, url).None? <==> forall k :: 0 <= k < |pats| ==> Search(pats[k], url, 0).None?
  {
    if pats != [] && Search(pats[0], url, 0).None? {
      var rest := pats[1..];
      FirstMatchNone(rest, url);
      assert forall k :: 1 <= k < |pats| ==> pats[k] == rest[k - 1];
    }
  }

  /** Otherwise it returns the capture of a pattern that matches while every
      earlier one does not. */
  lemma {:induction false} FirstMatchSome(pats: seq<Pattern>, url: string)
    requires FirstMatch(pats, url).Some?
    ensures exists k ::
      && 0 <= k < |pats| && Search(pats[k], url, 0).Some?
      && (forall j :: 0 <= j < k ==> Search(pats[j], url, 0).None?)
      && FirstMatch(pats, url).value == Captured(url, Search(pats[k], url, 0).value)
  {
    if Search(pats[0], url, 0).None? {
      var rest := pats[1..];
      FirstMatchSome(rest, url);
      var k :| 0 <= k < |rest| && Search(rest[k], url, 0).Some?
        && (forall j :: 0 <= j < k ==> Search(rest[j], url, 0).None?)
        && FirstMatch(rest, url).value == Captured(url, Search(rest[k], url, 0).value);
      assert pats[k + 1] == rest[k];
      assert forall j :: 1 <= j < k + 1 ==> pats[j] == rest[j - 1];
    }
  }

  /** extract_tiktok_id. The result is the capture of the first pattern, in
      list order, that matches: a later pattern counts only when every
      earlier one found nothing, and None means that none matched. */
  function ExtractTikTokId(url: string): (r: Option<string>)
    ensures var s0, s1, s2, s3 := Search(VideoPage, url, 0), Search(ShortV, url, 0),
              Search(VmShort, url, 0), Search(VtShort, url, 0);
      && (s0.Some? ==> r == Some(Captured(url, s0.value)))
      && (s0.None? && s1.Some? ==> r == Some(Captured(url, s1.value)))
      && (s0.None? && s1.None? && s2.Some? ==> r == Some(Captured(url, s2.value)))
      && (s0.None? && s1.None? && s2.None? && s3.Some? ==> r == Some(Captured(url, s3.value)))
      && (s0.None? && s1.None? && s2.None? && s3.None? ==> r == None)
  {
    assert PATTERNS == [VideoPage] + [ShortV, VmShort, VtShort];
    FirstMatchStep(VideoPage, [ShortV, VmShort, VtShort], url);
    assert [ShortV, VmShort, VtShort] == [ShortV] + [VmShort, VtShort];
    FirstMatchStep(ShortV, [VmShort, VtShort], url);
    assert [VmShort, VtShort] == [VmShort] + [VtShort];
    FirstMatchStep(VmShort, [VtShort], url);
    assert [VtShort] == [VtShort] + [];
    FirstMatchStep(VtShort, [], url);
    FirstMatch(PATTERNS, url)
  }

  /** One turn of the loop: the head pattern decides if it matches. */
  lemma FirstMatchStep(pat: Pattern, rest: seq<Pattern>, url: string)
    ensures FirstMatch([pat] + rest, url) ==
      match Search(pat, url, 0)
      case Some(m) => Some(Captured(url, m))
      case None => FirstMatch(rest, url)
  {
    assert ([pat] + rest)[1..] == rest;
  }

  /** What a successful search captures is a non-empty run of the pattern's
      capture class. */
  lemma CapturedShape(pat: Pattern, url: string)
    requires Search(pat, url, 0).Some?
    ensures var id := Captured(url, Search(pat, url, 0).value);
      |id| > 0 && forall i :: 0 <= i < |id| ==> InClass(id[i], CaptureClass(pat))
  {
  }

  /** Any ID returned is non-empty and made of word characters; it is made of
      digits when one of the first two patterns matched. */
  lemma ExtractedIdShape(url: string)
    ensures ExtractTikTokId(url).Some? ==>
      |ExtractTikTokId(url).value| > 0
      && forall i :: 0 <= i < |ExtractTikTokId(url).value| ==> IsWordChar(ExtractTikTokId(url).value[i])
    ensures ExtractTikTokId(url).Some? && (Search(VideoPage, url, 0).Some? || Search(ShortV, url, 0).Some?) ==>
      forall i :: 0 <= i < |ExtractTikTokId(url).value| ==> IsDigit(ExtractTikTokId(url).value[i])
  {
    var r := ExtractTikTokId(url);
    if r.Some? {
      var pat :=
        if Search(VideoPage, url, 0).Some? then VideoPage
        else if Search(ShortV, url, 0).Some? then ShortV
        else if Search(VmShort, url, 0).Some? then VmShort
        else VtShort;
      CapturedShape(pat, url);
      assert r.value == Captured(url, Search(pat, url, 0).value);
      forall i | 0 <= i < |r.value| ensures IsWordChar(r.value[i]) {
        DigitsAreWord(r.value[i], CaptureClass(pat));
      }
    }
  }

  /** "tiktok.com/@" cannot start inside a prefix with no '@' in it and end
      at or before the occurrence at |a|. */
  lemma NoVideoPageBefore(url: string, a: string)
    requires '@' !in a
    requires |a| + 12 <= |url| && url[..|a|] == a && url[|a|..|a| + 12] == "tiktok.com/@"
    ensures forall q :: 0 <= q < |a| ==> MatchAt(VideoPage, url, q).None?
  {
    forall q | 0 <= q < |a| ensures !OccursAt(url, q, "tiktok.com/@") {
      if q + 12 <= |url| {
        var c := url[q + 11];
        if q + 11 < |a| {
          assert c == url[..|a|][q + 11];
        } else {
          assert c == url[|a|..|a| + 12][q + 11 - |a|];
        }
        assert c != '@';
        assert url[q..q + 12][11] == c;
      }
    }
  }

  /** The group that MatchVideoPage takes at p: the digits after "/video/". */
  lemma VideoPageMatch(url: string, p: nat, userEnd: nat, digitsEnd: nat)
    requires p + 12 < userEnd && userEnd + 7 < digitsEnd <= |url|
    requires OccursAt(url, p, "tiktok.com/@") && OccursAt(url, userEnd, "/video/")
    requires forall k :: p + 12 <= k < userEnd ==> InClass(url[k], UserName)
    requires forall k :: userEnd + 7 <= k < digitsEnd ==> IsDigit(url[k])
    requires digitsEnd == |url| || !IsDigit(url[digitsEnd])
    ensures MatchAt(VideoPage, url, p) == Some(Span(userEnd + 7, digitsEnd))
  {
    assert url[userEnd] == url[userEnd..userEnd + 7][0] == '/';
    RunEndIs(url, p + 12, userEnd, UserName);
    RunEndIs(url, userEnd + 7, digitsEnd, Digits);
  }

  /** For a URL holding `tiktok.com/@<user>/video/<digits>`, with no '@'
      before it, the ID is the whole run of digits after "/video/". */
  lemma {:induction false} VideoPageId(a: string, user: string, digits: string, rest: string)
    requires '@' !in a
    requires |user| > 0 && forall k :: 0 <= k < |user| ==> InClass(user[k], UserName)
    requires |digits| > 0 && forall k :: 0 <= k < |digits| ==> IsDigit(digits[k])
    requires rest == [] || !IsDigit(rest[0])
    ensures ExtractTikTokId(a + "tiktok.com/@" + user + "/video/" + digits + rest) == Some(digits)
  {
    var url := a + "tiktok.com/@" + user + "/video/" + digits + rest;
    var e := |a| + 12 + |user|;
    var d := e + 7 + |digits|;
    assert url[..|a|] == a;
    assert url[|a|..|a| + 12] == "tiktok.com/@";
    assert url[e..e + 7] == "/video/";
    assert url[e + 7..d] == digits;
    NoVideoPageBefore(url, a);
    forall k | |a| + 12 <= k < e ensures InClass(url[k], UserName) {
      assert url[k] == user[k - |a| - 12];
    }
    forall k | e + 7 <= k < d ensures IsDigit(url[k]) {
      assert url[k] == digits[k - e - 7];
    }
    assert d < |url| ==> url[d] == rest[0];
    VideoPageMatch(url, |a|, e, d);
    SearchFinds(VideoPage, url, |a|, Span(e + 7, d));
  }
}
