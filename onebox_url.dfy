/** URL classification of the whitelisted generic onebox engine
    (lib/onebox/engine/whitelisted_generic_onebox.rb): which URLs the engine claims.
    The three regular expressions of the source are written out as string predicates. */
module OneboxUrl {
  import opened Wrappers
  import opened Text

  /** The parts of a parsed URI the classifier reads; Ruby's `uri.host` and `uri.path` may be nil. */
  datatype Uri = Uri(host: Option<string>, path: Option<string>)

  // ---------------------------------------------------------------------------
  // host_matches
  // ---------------------------------------------------------------------------

  /** `host` is the listed domain itself or one of its subdomains. */
  predicate HostMatchesEntry(host: string, entry: string) {
    host == entry || EndsWith(host, "." + entry)
  }

  /** What the pattern `(^|\.)<escaped entry>$` accepts on a host without line breaks:
      `entry` occurs literally at the end, at the start of the host or right after a dot. */
  ghost predicate AnchoredSuffix(host: string, entry: string) {
    exists k: nat :: k <= |host| && host[k..] == entry && (k == 0 || host[k - 1] == '.')
  }

  lemma EntryMatchIsAnchoredSuffix(host: string, entry: string)
    ensures HostMatchesEntry(host, entry) <==> AnchoredSuffix(host, entry)
  {
    if HostMatchesEntry(host, entry) {
      if host == entry {
        assert host[0..] == entry;
      } else {
        var k := |host| - |entry|;
        assert host[k - 1..] == "." + entry;
        assert host[k..] == host[k - 1..][1..];
        assert host[k - 1] == host[k - 1..][0];
      }
    }
    if AnchoredSuffix(host, entry) {
      var k: nat :| k <= |host| && host[k..] == entry && (k == 0 || host[k - 1] == '.');
      if k == 0 {
        assert host == host[0..];
      } else {
        assert host[k - 1..] == [host[k - 1]] + host[k..];
      }
    }
  }

  /** `host_matches(uri, list)`: some entry of `list` matches the host, scanning the list in order
      as `find` does. A nil host matches nothing. */
  function HostMatches(host: Option<string>, list: seq<string>): (b: bool)
    ensures b <==> host.Some? && exists i :: 0 <= i < |list| && HostMatchesEntry(host.value, list[i])
  {
    if host.None? || list == [] then false
    else if HostMatchesEntry(host.value, list[0]) then true
    else
      var rest := HostMatches(host, list[1..]);
      assert forall i :: 1 <= i < |list| ==> list[i] == list[1..][i - 1];
      rest
  }

  /** Subdomains match, look-alike domains do not, and the dot of an entry is literal. */
  lemma HostMatchesExamples()
    ensures HostMatches(Some("www.cnn.com"), ["cnn.com"])
    ensures HostMatches(Some("cnn.com"), ["cnn.com"])
    ensures !HostMatches(Some("notcnn.com"), ["cnn.com"])
    ensures !HostMatches(Some("cnnxcom"), ["cnn.com"])
    ensures !HostMatches(None, ["cnn.com"])
  {
    assert HostMatchesEntry("www.cnn.com", ["cnn.com"][0]) by {
      assert "www.cnn.com"[|"www.cnn.com"| - |".cnn.com"|..] == ".cnn.com";
    }
    assert !HostMatchesEntry("notcnn.com", "cnn.com") by {
      assert "notcnn.com"[|"notcnn.com"| - |".cnn.com"|..][0] == 't';
    }
  }

  // ---------------------------------------------------------------------------
  // probable_wordpress:  /\d{4}\/\d{2}\//
  // ---------------------------------------------------------------------------

  /** Four digits, '/', two digits, '/' start at index `i` of `path`. */
  predicate WordpressAt(path: string, i: nat) {
    i + 8 <= |path| &&
    IsDigit(path[i]) && IsDigit(path[i + 1]) && IsDigit(path[i + 2]) && IsDigit(path[i + 3]) &&
    path[i + 4] == '/' &&
    IsDigit(path[i + 5]) && IsDigit(path[i + 6]) &&
    path[i + 7] == '/'
  }

  function WordpressFrom(path: string, start: nat): (b: bool)
    ensures b <==> exists i: nat :: start <= i && WordpressAt(path, i)
    decreases |path| - start
  {
    if start + 8 > |path| then false
    else WordpressAt(path, start) || WordpressFrom(path, start + 1)
  }

  /** `probable_wordpress(uri)`: the path holds a date-like "dddd/dd/" anywhere; a nil path never does. */
  function ProbableWordpress(path: Option<string>): (b: bool)
    ensures b <==> path.Some? && exists i: nat :: WordpressAt(path.value, i)
  {
    path.Some? && WordpressFrom(path.value, 0)
  }

  lemma WordpressExamples()
    ensures ProbableWordpress(Some("/2014/05/hello-world"))
    ensures ProbableWordpress(Some("/blog/2014/05/"))
    ensures !ProbableWordpress(Some("/14/05/hello"))
    ensures !ProbableWordpress(None)
  {
    assert WordpressAt("/2014/05/hello-world", 1);
    assert WordpressAt("/blog/2014/05/", 6);
    var p := "/14/05/hello";
    forall i: nat ensures !WordpressAt(p, i) {
      if i + 8 <= |p| {
        assert p[3] == '/' && p[6] == '/' && p[1] == '1' && p[2] == '4';
      }
    }
  }

  // ---------------------------------------------------------------------------
  // probable_discourse:  /\/t\/[^\/]+\/\d+(\/\d+)?(\?.*)?$/
  // ---------------------------------------------------------------------------

  /** The end of a Discourse topic link: the topic id, an optional "/" post number and an
      optional "?" query. */
  datatype LinkTail = LinkTail(topicId: string, postNumber: Option<string>, query: Option<string>)

  /** A Discourse topic link: "/t/", a slug, "/", then the tail. */
  datatype DiscourseLink = DiscourseLink(slug: string, tail: LinkTail)

  predicate WellFormedTail(t: LinkTail) {
    t.topicId != [] && AllDigits(t.topicId) &&
    (t.postNumber.Some? ==> t.postNumber.value != [] && AllDigits(t.postNumber.value))
  }

  predicate WellFormedLink(l: DiscourseLink) {
    l.slug != [] && NoSlash(l.slug) && WellFormedTail(l.tail)
  }

  function QueryText(q: Option<string>): string {
    if q.Some? then "?" + q.value else ""
  }

  function PostText(p: Option<string>): string {
    if p.Some? then "/" + p.value else ""
  }

  function TailText(t: LinkTail): string {
    t.topicId + (PostText(t.postNumber) + QueryText(t.query))
  }

  /** The text a link stands for. */
  function RenderLink(l: DiscourseLink): string {
    "/t/" + (l.slug + ("/" + TailText(l.tail)))
  }

  /** `(\?.*)?$`: nothing, or "?" and anything, up to the end. */
  function ParseQuery(x: string): (r: Option<Option<string>>)
    ensures r.None? <==> x != [] && x[0] != '?'
  {
    if x == [] then Some(None)
    else if x[0] == '?' then Some(Some(x[1..]))
    else None
  }

  /** `\d+(\/\d+)?(\?.*)?$`. Each digit run is taken whole: a shorter run would leave a digit
      where the pattern needs '/', '?' or the end. */
  function ParseTail(v: string): Option<LinkTail> {
    var d := DigitRun(v);
    if d == 0 then None else ParseAfterId(v[..d], v[d..])
  }

  /** After the topic id: "/" and the post number, or the query part directly. */
  function ParseAfterId(id: string, w: string): Option<LinkTail> {
    if w != [] && w[0] == '/' then ParsePost(id, w[1..])
    else
      match ParseQuery(w)
      case None => None
      case Some(q) => Some(LinkTail(id, None, q))
  }

  /** After "<topic id>/": the post number, then the query part. */
  function ParsePost(id: string, x: string): Option<LinkTail> {
    var e := DigitRun(x);
    if e == 0 then None
    else
      match ParseQuery(x[e..])
      case None => None
      case Some(q) => Some(LinkTail(id, Some(x[..e]), q))
  }

  /** `\/t\/[^\/]+\/` followed by the tail: reads `t` as exactly one link. The slug is
      taken up to the first '/', since it may not contain one. What it accepts is one
      well-formed link, and exactly the text it was read from. */
  function ParseLink(t: string): (r: Option<DiscourseLink>)
    ensures r.Some? ==> WellFormedLink(r.value) && RenderLink(r.value) == t
  {
    if !StartsWith(t, "/t/") then None
    else
      var u := t[3..];
      var n := SlugRun(u);
      if n == 0 || n == |u| then None
      else
        match ParseTail(u[n + 1..])
        case None => None
        case Some(tail) =>
          ParseTailSound(u[n + 1..]);
          SplitAround(u, n);
          SplitAt(t, 3);
          Some(DiscourseLink(u[..n], tail))
  }

  lemma ParseQuerySound(x: string)
    requires ParseQuery(x).Some?
    ensures QueryText(ParseQuery(x).value) == x
  {
    if x != [] {
      assert x == "?" + x[1..];
    }
  }

  lemma ParsePostSound(id: string, x: string)
    requires ParsePost(id, x).Some?
    ensures var t := ParsePost(id, x).value;
      t.topicId == id && t.postNumber.Some? && t.postNumber.value != [] && AllDigits(t.postNumber.value) &&
      PostText(t.postNumber) + QueryText(t.query) == "/" + x
  {
    var e := DigitRun(x);
    ParseQuerySound(x[e..]);
    SplitAt(x, e);
  }

  lemma ParseAfterIdSound(id: string, w: string)
    requires ParseAfterId(id, w).Some?
    ensures var t := ParseAfterId(id, w).value;
      t.topicId == id && (t.postNumber.Some? ==> t.postNumber.value != [] && AllDigits(t.postNumber.value)) &&
      PostText(t.postNumber) + QueryText(t.query) == w
  {
    if w != [] && w[0] == '/' {
      ParsePostSound(id, w[1..]);
      assert w == "/" + w[1..];
    } else {
      ParseQuerySound(w);
    }
  }

  lemma ParseTailSound(v: string)
    requires ParseTail(v).Some?
    ensures WellFormedTail(ParseTail(v).value) && TailText(ParseTail(v).value) == v
  {
    var d := DigitRun(v);
    ParseAfterIdSound(v[..d], v[d..]);
    SplitAt(v, d);
  }

  lemma QueryRoundTrip(q: Option<string>)
    ensures ParseQuery(QueryText(q)) == Some(q)
  {
    if q.Some? {
      assert QueryText(q)[1..] == q.value;
    }
  }

  lemma PostRoundTrip(t: LinkTail)
    requires WellFormedTail(t) && t.postNumber.Some?
    ensures ParsePost(t.topicId, t.postNumber.value + QueryText(t.query)) == Some(t)
  {
    var p, q := t.postNumber.value, QueryText(t.query);
    DigitRunOfConcat(p, q);
    assert (p + q)[..|p|] == p;
    assert (p + q)[|p|..] == q;
    QueryRoundTrip(t.query);
  }

  lemma AfterIdRoundTrip(t: LinkTail)
    requires WellFormedTail(t)
    ensures ParseAfterId(t.topicId, PostText(t.postNumber) + QueryText(t.query)) == Some(t)
  {
    var w := PostText(t.postNumber) + QueryText(t.query);
    if t.postNumber.Some? {
      assert w[1..] == t.postNumber.value + QueryText(t.query);
      PostRoundTrip(t);
    } else {
      assert w == QueryText(t.query);
      QueryRoundTrip(t.query);
    }
  }

  lemma TailRoundTrip(t: LinkTail)
    requires WellFormedTail(t)
    ensures ParseTail(TailText(t)) == Some(t)
  {
    var rest := PostText(t.postNumber) + QueryText(t.query);
    var v := TailText(t);
    assert rest == [] || !IsDigit(rest[0]);
    DigitRunOfConcat(t.topicId, rest);
    assert v[..|t.topicId|] == t.topicId;
    assert v[|t.topicId|..] == rest;
    AfterIdRoundTrip(t);
  }

  /** Every well-formed link reads back as itself. */
  lemma ParseRenderRoundTrip(l: DiscourseLink)
    requires WellFormedLink(l)
    ensures ParseLink(RenderLink(l)) == Some(l)
  {
    var t := RenderLink(l);
    var u := l.slug + ("/" + TailText(l.tail));
    assert StartsWith(t, "/t/");
    assert t[3..] == u;
    SlugRunOfConcat(l.slug, "/" + TailText(l.tail));
    assert u[..|l.slug|] == l.slug;
    assert u[|l.slug| + 1..] == TailText(l.tail);
    TailRoundTrip(l.tail);
  }

  function DiscourseFrom(path: string, start: nat): (b: bool)
    ensures b <==> exists i: nat :: start <= i <= |path| && ParseLink(path[i..]).Some?
    decreases |path| - start
  {
    if start > |path| then false
    else ParseLink(path[start..]).Some? || DiscourseFrom(path, start + 1)
  }

  /** `probable_discourse(uri)`: some suffix of the path is one Discourse topic link. */
  function ProbableDiscourse(path: Option<string>): (b: bool)
    ensures b <==> path.Some? && exists i: nat :: i <= |path.value| && ParseLink(path.value[i..]).Some?
  {
    path.Some? && DiscourseFrom(path.value, 0)
  }

  /** A path that ends with a well-formed link, whatever comes before it, is a Discourse path. */
  lemma DiscourseComplete(prefix: string, l: DiscourseLink)
    requires WellFormedLink(l)
    ensures ProbableDiscourse(Some(prefix + RenderLink(l)))
  {
    var p := prefix + RenderLink(l);
    assert p[|prefix|..] == RenderLink(l);
    ParseRenderRoundTrip(l);
  }

  /** A Discourse path ends with a well-formed link. */
  lemma DiscourseSound(path: string) returns (prefix: string, l: DiscourseLink)
    requires ProbableDiscourse(Some(path))
    ensures WellFormedLink(l) && path == prefix + RenderLink(l)
  {
    var i := DiscourseStart(path, 0);
    l := ParseLink(path[i..]).value;
    prefix := path[..i];
    SplitAt(path, i);
  }

  /** Where the scan of `DiscourseFrom` finds its link. */
  lemma {:induction false} DiscourseStart(path: string, start: nat) returns (i: nat)
    requires DiscourseFrom(path, start)
    ensures start <= i <= |path| && ParseLink(path[i..]).Some?
    decreases |path| - start
  {
    if ParseLink(path[start..]).Some? {
      i := start;
    } else {
      i := DiscourseStart(path, start + 1);
    }
  }

  /** The slug may not be empty. */
  lemma EmptySlugRejected()
    ensures ParseLink("/t//12") == None
  {
  }

  // ---------------------------------------------------------------------------
  // ===
  // ---------------------------------------------------------------------------

  /** `WhitelistedGenericOnebox === uri` for a URI, given the whitelist in effect: claimed exactly
      when its host is whitelisted or its path looks like a WordPress post or a Discourse topic; in
      particular an empty whitelist still claims the latter two. */
  function Matches(uri: Uri, whitelist: seq<string>): (b: bool)
    ensures b <==>
      (uri.host.Some? && exists i :: 0 <= i < |whitelist| && HostMatchesEntry(uri.host.value, whitelist[i])) ||
      (uri.path.Some? && exists i: nat :: WordpressAt(uri.path.value, i)) ||
      (uri.path.Some? && exists i: nat :: i <= |uri.path.value| && ParseLink(uri.path.value[i..]).Some?)
    ensures whitelist == [] ==> (b <==> ProbableWordpress(uri.path) || ProbableDiscourse(uri.path))
  {
    HostMatches(uri.host, whitelist) || ProbableWordpress(uri.path) || ProbableDiscourse(uri.path)
  }
}
