/** Hand-written matchers for the three Instagram link patterns the bot
    uses, and the facts that connect them.

    - `IsPostLink`: the anchored validator
      `^https?://(www\.)?instagram\.com/(reel|p)/[A-Za-z0-9_-]+`
      (the downloader's and the validators' `isValidInstagramUrl`);
    - `FirstPostId`: the unanchored extractor `/(?:reel|p)/([A-Za-z0-9_-]+)`
      (`extractShortcode`, `extractInstagramPostId`): the identifier after
      the leftmost `/reel/` or `/p/`, as the maximal run of id characters;
    - `MentionsPostLink`: the handler's unanchored
      `(?:https?://)?(?:www\.)?instagram\.com/(?:reel|p)/([A-Za-z0-9_-]+)`.

    Each optional group in these patterns is exclusive with the text that
    follows it (`https://` against `http://`, `www.` against `instagram.`,
    `reel/` against `p/`), so the regular expressions never backtrack into
    a different split and the matchers below decide them deterministically. */
module InstagramUrl {
  import opened Text

  const HTTPS := "https://"
  const HTTP := "http://"
  const WWW := "www."
  const HOST := "instagram.com/"
  const REEL := "reel/"
  const POST := "p/"

  /** Index just after `https?://`, if `s` starts with a scheme. */
  function SchemeEnd(s: string): (r: Option<nat>)
    ensures r.Some? ==> r.value <= |s|
  {
    if StartsWith(s, HTTPS) then Some(8)
    else if StartsWith(s, HTTP) then Some(7)
    else None
  }

  /** Index just after `https?://(www\.)?instagram\.com/`. */
  function HostEnd(s: string): (r: Option<nat>)
    ensures r.Some? ==> 14 <= r.value <= |s|
  {
    match SchemeEnd(s)
    case None => None
    case Some(a) =>
      var b := if StartsWith(s[a..], WWW) then a + 4 else a;
      if StartsWith(s[b..], HOST) then Some(b + 14) else None
  }

  /** Index where the post identifier starts, after `(reel|p)/`. */
  function IdStart(s: string): (r: Option<nat>)
    ensures r.Some? ==> 16 <= r.value <= |s|
  {
    match HostEnd(s)
    case None => None
    case Some(c) =>
      if StartsWith(s[c..], REEL) then Some(c + 5)
      else if StartsWith(s[c..], POST) then Some(c + 2)
      else None
  }

  /** The anchored validator: the prefix matches and at least one id
      character follows it. */
  predicate IsPostLink(s: string) {
    var k := IdStart(s);
    k.Some? && k.value < |s| && IsIdChar(s[k.value])
  }

  /** The maximal run of id characters at the start of `s`. */
  function IdRun(s: string): (r: string)
    ensures StartsWith(s, r)
    ensures forall i :: 0 <= i < |r| ==> IsIdChar(r[i])
    ensures |r| == |s| || !IsIdChar(s[|r|])
  {
    s[..PrefixRun(s, IsIdChar)]
  }

  /** The extractor's match at position 0 of `s`, if any. */
  function PostIdAt(s: string): Option<string> {
    if StartsWith(s, "/reel/") && |s| > 6 && IsIdChar(s[6]) then Some(IdRun(s[6..]))
    else if StartsWith(s, "/p/") && |s| > 3 && IsIdChar(s[3]) then Some(IdRun(s[3..]))
    else None
  }

  /** The extractor: the capture group of the leftmost match. */
  function FirstPostId(s: string): (r: Option<string>)
    ensures r.Some? ==> |r.value| > 0 && forall i :: 0 <= i < |r.value| ==> IsIdChar(r.value[i])
    decreases |s|
  {
    if |s| == 0 then None
    else match PostIdAt(s)
      case Some(id) => Some(id)
      case None => FirstPostId(s[1..])
  }

  /** `instagram.com/reel/<id>` or `instagram.com/p/<id>` starts at 0. */
  predicate PostLinkAt(s: string) {
    && StartsWith(s, HOST)
    && var t := s[14..];
       || (StartsWith(t, REEL) && |t| > 5 && IsIdChar(t[5]))
       || (StartsWith(t, POST) && |t| > 2 && IsIdChar(t[2]))
  }

  /** The handler's unanchored test. Both leading groups are optional,
      so a match exists exactly when the mandatory part
      `instagram.com/(reel|p)/<id char>` occurs somewhere. */
  predicate MentionsPostLink(s: string)
    decreases |s|
  {
    PostLinkAt(s) || (|s| > 0 && MentionsPostLink(s[1..]))
  }

  /** No `/` in `s` is followed by `r` or `p`. */
  predicate MarkerFree(s: string) {
    forall i :: 0 <= i < |s| - 1 && s[i] == '/' ==> s[i + 1] != 'r' && s[i + 1] != 'p'
  }

  /** The extractor skips a prefix in which no `/reel/` or `/p/` can start. */
  lemma {:induction false} SkipMarkerFree(l: string, t: string)
    requires MarkerFree(l) && (|l| == 0 || l[|l| - 1] != '/')
    ensures FirstPostId(l + t) == FirstPostId(t)
    decreases |l|
  {
    if |l| > 0 {
      var s := l + t;
      assert s[0] == l[0];
      if l[0] == '/' {
        assert |l| >= 2 && s[1] == l[1];
        assert |s| >= 6 ==> s[..6][1] == s[1];
        assert |s| >= 3 ==> s[..3][1] == s[1];
      } else {
        assert |s| >= 6 ==> s[..6][0] == s[0];
        assert |s| >= 3 ==> s[..3][0] == s[0];
      }
      assert PostIdAt(s) == None;
      assert s[1..] == l[1..] + t;
      assert MarkerFree(l[1..]) by {
        forall i | 0 <= i < |l[1..]| - 1 && l[1..][i] == '/'
          ensures l[1..][i + 1] != 'r' && l[1..][i + 1] != 'p'
        {
          assert l[i + 1] == '/';
        }
      }
      SkipMarkerFree(l[1..], t);
    } else {
      assert l + t == t;
    }
  }

  /** Joining two marker-free texts keeps the result marker-free unless
      the first ends with `/` and the second starts with `r` or `p`. */
  lemma MarkerFreeConcat(x: string, y: string)
    requires MarkerFree(x) && MarkerFree(y)
    requires |x| == 0 || |y| == 0 || x[|x| - 1] != '/' || (y[0] != 'r' && y[0] != 'p')
    ensures MarkerFree(x + y)
  {
    var s := x + y;
    forall i | 0 <= i < |s| - 1 && s[i] == '/'
      ensures s[i + 1] != 'r' && s[i + 1] != 'p'
    {
      if i + 1 < |x| {
        assert s[i] == x[i] && s[i + 1] == x[i + 1];
      } else if i + 1 == |x| {
        assert s[i] == x[|x| - 1] && s[i + 1] == y[0];
      } else {
        assert s[i] == y[i - |x|] && s[i + 1] == y[i - |x| + 1];
      }
    }
  }

  /** A valid link starts with a scheme, an optional `www.` and the host. */
  lemma HostParts(s: string)
    requires HostEnd(s).Some?
    ensures var a := SchemeEnd(s).value; var b := HostEnd(s).value - 14;
      && a <= b
      && (s[..a] == HTTPS || s[..a] == HTTP)
      && (s[a..b] == WWW || a == b)
      && s[b..b + 14] == HOST
  {
    var a := SchemeEnd(s).value;
    var b := if StartsWith(s[a..], WWW) then a + 4 else a;
    assert HostEnd(s).value == b + 14;
    assert s[b..b + 14] == s[b..][..14];
    if b == a + 4 {
      assert s[a..b] == s[a..][..4];
    }
  }

  lemma PrefixPiecesMarkerFree()
    ensures MarkerFree(HTTPS) && MarkerFree(HTTP) && MarkerFree(WWW) && MarkerFree("instagram.com")
  {
  }

  /** The text before the `/` that precedes `reel/` or `p/` in a valid link
      is a scheme, an optional `www.` and `instagram.com`: it contains no
      `/r` or `/p` and does not end with `/`. */
  lemma HostPrefix(s: string)
    requires HostEnd(s).Some?
    ensures var h := HostEnd(s).value - 1;
      && 0 < h && s[h] == '/' && s[h - 1] != '/'
      && MarkerFree(s[..h])
  {
    HostParts(s);
    var a := SchemeEnd(s).value;
    var b := HostEnd(s).value - 14;
    var h := b + 13;
    var name := "instagram.com";
    assert s[h] == s[b..b + 14][13];
    assert s[b..h] == s[b..b + 14][..13];
    assert s[b..h] == name;
    assert s[..h] == s[..a] + s[a..b] + name;
    PrefixPiecesMarkerFree();
    if a < b {
      MarkerFreeConcat(s[..a], WWW);
      MarkerFreeConcat(s[..a] + WWW, name);
    } else {
      assert s[..a] + s[a..b] == s[..a];
      MarkerFreeConcat(s[..a], name);
    }
  }

  /** A `/` followed by `reel/` or `p/` and an id character is a match of
      the extractor, whose capture is the id run that follows. */
  lemma MarkerMatch(t: string, n: nat)
    requires |t| > n && t[0] == '/' && IsIdChar(t[n])
    requires (n == 6 && StartsWith(t[1..], REEL)) || (n == 3 && StartsWith(t[1..], POST))
    ensures PostIdAt(t) == Some(IdRun(t[n..]))
  {
    if n == 6 {
      assert t[..6] == "/" + t[1..][..5];
    } else {
      assert t[..3] == "/" + t[1..][..2];
      assert t[1] == t[1..][..2][0];
      assert |t| >= 6 ==> t[..6][1] == t[1];
    }
  }

  /** Every link the anchored validator accepts yields an identifier: the
      maximal id run right after `/reel/` or `/p/`, which is non-empty. So
      an accepted link always has a shortcode. */
  lemma ValidLinkHasPostId(s: string)
    requires IsPostLink(s)
    ensures FirstPostId(s) == Some(IdRun(s[IdStart(s).value..]))
    ensures |IdRun(s[IdStart(s).value..])| > 0
  {
    var k := IdStart(s).value;
    var c := HostEnd(s).value;
    var h := c - 1;
    HostPrefix(s);
    var l := s[..h];
    var t := s[h..];
    assert s == l + t;
    SkipMarkerFree(l, t);
    assert t[1..] == s[c..];
    var n := k - h;
    assert t[n..] == s[k..];
    MarkerMatch(t, n);
  }

  /** `MentionsPostLink` holds when the mandatory part starts at `j`. */
  lemma {:induction false} MentionsAt(s: string, j: nat)
    requires j <= |s| && PostLinkAt(s[j..])
    ensures MentionsPostLink(s)
    decreases j
  {
    if j > 0 {
      assert s[1..][j - 1..] == s[j..];
      MentionsAt(s[1..], j - 1);
    }
  }

  /** Every link the anchored validator accepts is also recognised by the
      handler's unanchored test. */
  lemma PostLinkIsMentioned(s: string)
    requires IsPostLink(s)
    ensures MentionsPostLink(s)
  {
    var c := HostEnd(s).value;
    var b := c - 14;
    assert s[b..][..14] == HOST;
    assert s[b..][14..] == s[c..];
    MentionsAt(s, b);
  }

  /** The converse fails: a link without a scheme is recognised by the
      handler but refused by the validator. */
  lemma MentionedNotPostLink()
    ensures MentionsPostLink("instagram.com/p/X") && !IsPostLink("instagram.com/p/X")
  {
    var s := "instagram.com/p/X";
    assert s[..14] == HOST;
    assert s[14..][..2] == POST;
    assert PostLinkAt(s);
    assert s[..8][0] == 'i' && s[..7][0] == 'i';
    assert SchemeEnd(s) == None;
  }
}
