/** HTML selection of the whitelisted generic onebox engine
    (lib/onebox/engine/whitelisted_generic_onebox.rb): which form of markup is rendered
    for a page's OpenGraph/oEmbed data, and the http-to-https rewrite applied to it. */
module OneboxHtml {
  import opened Wrappers
  import opened Text
  import OneboxUrl

  /** The entries of `data` the engine reads. Every entry may be nil. */
  datatype OgData = OgData(
    ogType: Option<string>,
    title: Option<string>,
    description: Option<string>,
    image: Option<string>,
    imageWidth: Option<string>,
    imageHeight: Option<string>,
    thumbnailUrl: Option<string>,
    thumbnailWidth: Option<string>,
    thumbnailHeight: Option<string>,
    video: Option<string>,
    videoSecureUrl: Option<string>,
    videoType: Option<string>,
    videoWidth: Option<string>,
    videoHeight: Option<string>,
    html: Option<string>,
    providerName: Option<string>)

  /** `Onebox::Helpers.blank?`: nil or the empty string. */
  predicate Blank(v: Option<string>) {
    v.None? || v.value == ""
  }

  /** Ruby's `a || b` on two possibly-nil values: `a` unless it is nil. The empty string is not nil. */
  function OrElse(a: Option<string>, b: Option<string>): (r: Option<string>)
    ensures a.Some? ==> r == a
    ensures a.None? ==> r == b
  {
    if a.Some? then a else b
  }

  /** String interpolation `#{v}`: nil interpolates as "". */
  function Interpolate(v: Option<string>): string {
    v.GetOr("")
  }

  /** `data[:type] =~ /word/`; a nil type matches nothing. */
  predicate TypeMentions(d: OgData, word: string) {
    d.ogType.Some? && Contains(d.ogType.value, word)
  }

  // ---------------------------------------------------------------------------
  // The predicates of the decision
  // ---------------------------------------------------------------------------

  /** `has_text?`: both a title and a description. */
  predicate HasText(d: OgData) {
    !Blank(d.title) && !Blank(d.description)
  }

  /** `is_article?` */
  predicate IsArticle(d: OgData) {
    TypeMentions(d, "article") && HasText(d)
  }

  /** `has_image?`: an image or a thumbnail. */
  predicate HasImage(d: OgData) {
    !Blank(d.image) || !Blank(d.thumbnailUrl)
  }

  /** `is_image?`: a photo or image type that is not a photostream, with an image to show. */
  predicate IsImage(d: OgData) {
    (TypeMentions(d, "photo") || TypeMentions(d, "image")) &&
    !TypeMentions(d, "photostream") &&
    HasImage(d)
  }

  /** `is_video?`: a video type with a video URL. */
  predicate IsVideo(d: OgData) {
    TypeMentions(d, "video") && !Blank(d.video)
  }

  /** `is_embedded?`: there is embed html (even an empty string, which Ruby treats as true) that
      holds an iframe or comes from one of the providers whose html is trusted. */
  predicate IsEmbedded(d: OgData, htmlProviders: seq<string>) {
    d.html.Some? &&
    (Contains(d.html.value, "iframe") || (d.providerName.Some? && d.providerName.value in htmlProviders))
  }

  /** A photostream is never shown as an image. */
  lemma PhotostreamIsNeverImage(d: OgData)
    requires TypeMentions(d, "photostream")
    ensures !IsImage(d)
  {
  }

  // ---------------------------------------------------------------------------
  // image_html and video_html
  // ---------------------------------------------------------------------------

  /** The attributes of the `<img>` element of `image_html`. */
  datatype ImageTag = ImageTag(src: string, alt: string, width: string, height: string)

  /** `image_html`'s source: `data[:image] || data[:thumbnail_url]`. */
  function ImageSource(d: OgData): Option<string> {
    OrElse(d.image, d.thumbnailUrl)
  }

  /** `image_html` up to its markup: nil when the chosen source is blank. */
  function ImageTagOf(d: OgData): (r: Option<ImageTag>)
    ensures r.Some? <==> !Blank(ImageSource(d))
    ensures r.Some? && d.image.Some? ==> r.value.src == d.image.value
    ensures r.Some? && d.image.None? ==> r.value.src == d.thumbnailUrl.value
  {
    var src := ImageSource(d);
    if Blank(src) then None
    else Some(ImageTag(
      src.value,
      Interpolate(OrElse(d.description, d.title)),
      Interpolate(OrElse(d.imageWidth, d.thumbnailWidth)),
      Interpolate(OrElse(d.imageHeight, d.thumbnailHeight))))
  }

  function RenderImage(t: ImageTag): string {
    "<img src='" + t.src + ("' alt='" + t.alt + "' width='" + t.width + "' height='" + t.height + "'>")
  }

  /** `image_html`: nil exactly when the chosen source is blank, otherwise an `<img>` element
      whose `src` is that source. */
  function ImageHtml(d: OgData): (r: Option<string>)
    ensures r.None? <==> Blank(ImageSource(d))
    ensures r.Some? ==> StartsWith(r.value, "<img src='" + ImageSource(d).value)
  {
    match ImageTagOf(d)
    case None => None
    case Some(t) =>
      StartsWithAppended("<img src='" + t.src, "' alt='" + t.alt + "' width='" + t.width + "' height='" + t.height + "'>");
      Some(RenderImage(t))
  }

  /** An image present but empty shadows a usable thumbnail: `""` is not nil, so it is chosen as the
      source, found blank, and no image markup results although `has_image?` holds. */
  lemma EmptyImageShadowsThumbnail(d: OgData)
    requires d.image == Some("") && !Blank(d.thumbnailUrl)
    ensures HasImage(d) && ImageHtml(d) == None
  {
  }

  /** The two elements `video_html` can produce. */
  datatype VideoTag =
    | VideoElement(title: string, width: string, height: string, src: string)
    | IFrameElement(src: string, title: string, width: string, height: string)

  /** `video_url`: the secure URL when it is not blank, the plain one otherwise. */
  function VideoUrl(d: OgData): (r: Option<string>)
    ensures !Blank(d.videoSecureUrl) ==> r == d.videoSecureUrl
    ensures Blank(d.videoSecureUrl) ==> r == d.video
  {
    if !Blank(d.videoSecureUrl) then d.videoSecureUrl else d.video
  }

  /** `video_html` up to its markup: a `<video>` element for "video/mp4" and an iframe for any other
      (or no) video type, both pointing at the video URL. */
  function VideoTagOf(d: OgData): (r: VideoTag)
    ensures r.VideoElement? <==> d.videoType == Some("video/mp4")
    ensures r.src == Interpolate(VideoUrl(d))
    ensures r.title == Interpolate(d.title) && r.width == Interpolate(d.videoWidth) && r.height == Interpolate(d.videoHeight)
  {
    var url := Interpolate(VideoUrl(d));
    if d.videoType == Some("video/mp4") then
      VideoElement(Interpolate(d.title), Interpolate(d.videoWidth), Interpolate(d.videoHeight), url)
    else
      IFrameElement(url, Interpolate(d.title), Interpolate(d.videoWidth), Interpolate(d.videoHeight))
  }

  /** The heredoc text of `video_html`, indentation included. */
  function RenderVideo(t: VideoTag): string {
    match t
    case VideoElement(title, width, height, src) =>
      "              <video title='" + title + VideoRest(width, height, src)
    case IFrameElement(src, title, width, height) =>
      "              <iframe src='" + src + IFrameRest(title, width, height)
  }

  /** The `<video>` element after its title. */
  function VideoRest(width: string, height: string, src: string): string {
    "'\n" +
    "                     width='" + width + "'\n" +
    "                     height='" + height + "'\n" +
    "                     style='max-width:100%'\n" +
    "                     controls=''>\n" +
    "                <source src='" + src + "'>\n" +
    "              </video>\n"
  }

  /** The iframe after its `src`. */
  function IFrameRest(title: string, width: string, height: string): string {
    "'\n" +
    "                      title='" + title + "'\n" +
    "                      width='" + width + "'\n" +
    "                      height='" + height + "'\n" +
    "                      frameborder='0'>\n" +
    "              </iframe>\n"
  }

  /** `video_html`: a `<video>` element with the page title for "video/mp4", otherwise an iframe
      whose `src` is the video URL. */
  function VideoHtml(d: OgData): (r: string)
    ensures d.videoType == Some("video/mp4") ==> StartsWith(r, "              <video title='" + Interpolate(d.title))
    ensures d.videoType != Some("video/mp4") ==> StartsWith(r, "              <iframe src='" + Interpolate(VideoUrl(d)))
  {
    var t := VideoTagOf(d);
    match t
    case VideoElement(title, width, height, src) =>
      StartsWithAppended("              <video title='" + title, VideoRest(width, height, src));
      RenderVideo(t)
    case IFrameElement(src, title, width, height) =>
      StartsWithAppended("              <iframe src='" + src, IFrameRest(title, width, height));
      RenderVideo(t)
  }

  // ---------------------------------------------------------------------------
  // generic_html
  // ---------------------------------------------------------------------------

  /** The form `generic_html` renders. */
  datatype Form = ArticleForm | VideoForm | ImageForm | EmbeddedForm | NoForm

  /** The branch `generic_html` takes: the first of article, video, image, text, embed that applies. */
  function GenericForm(d: OgData, htmlProviders: seq<string>): (f: Form)
    ensures f == ArticleForm <==> HasText(d) && (TypeMentions(d, "article") || (!IsVideo(d) && !IsImage(d)))
    ensures f == VideoForm <==> IsVideo(d) && !IsArticle(d)
    ensures f == ImageForm <==> IsImage(d) && !IsVideo(d) && !IsArticle(d)
    ensures f == EmbeddedForm <==> IsEmbedded(d, htmlProviders) && !HasText(d) && !IsVideo(d) && !IsImage(d)
    ensures f == NoForm <==> !HasText(d) && !IsVideo(d) && !IsImage(d) && !IsEmbedded(d, htmlProviders)
  {
    if IsArticle(d) then ArticleForm
    else if IsVideo(d) then VideoForm
    else if IsImage(d) then ImageForm
    else if HasText(d) then ArticleForm
    else if IsEmbedded(d, htmlProviders) then EmbeddedForm
    else NoForm
  }

  /** `generic_html`. `articleHtml` and `embeddedHtml` are what the layout template and the HTML
      fragment clean-up produce; both are outside this model. */
  function GenericHtml(d: OgData, htmlProviders: seq<string>, articleHtml: string, embeddedHtml: string): (r: Option<string>)
    ensures r.None? <==>
      (!HasText(d) && !IsVideo(d) && !IsImage(d) && !IsEmbedded(d, htmlProviders)) ||
      (IsImage(d) && !IsVideo(d) && !IsArticle(d) && Blank(ImageSource(d)))
  {
    match GenericForm(d, htmlProviders)
    case ArticleForm => Some(articleHtml)
    case VideoForm => Some(VideoHtml(d))
    case ImageForm => ImageHtml(d)
    case EmbeddedForm => Some(embeddedHtml)
    case NoForm => None
  }

  /** `generic_html` reaches `is_embedded?` and evaluates `html_providers.include?`: no earlier
      branch applies, there is embed html, and it holds no iframe. */
  predicate ReadsHtmlProviders(d: OgData) {
    !IsArticle(d) && !IsVideo(d) && !IsImage(d) && !HasText(d) &&
    d.html.Some? && !Contains(d.html.value, "iframe")
  }

  /** When `generic_html` does not consult the provider list, the list makes no difference. */
  lemma ProvidersUnread(d: OgData, p1: seq<string>, p2: seq<string>, articleHtml: string, embeddedHtml: string)
    requires !ReadsHtmlProviders(d)
    ensures GenericHtml(d, p1, articleHtml, embeddedHtml) == GenericHtml(d, p2, articleHtml, embeddedHtml)
  {
  }

  /** When it does, the provider list alone decides between the embed and nil. */
  lemma ProvidersDecide(d: OgData, providers: seq<string>, articleHtml: string, embeddedHtml: string)
    requires ReadsHtmlProviders(d)
    ensures GenericHtml(d, providers, articleHtml, embeddedHtml) ==
      if d.providerName.Some? && d.providerName.value in providers then Some(embeddedHtml) else None
  {
  }

  /** An article type with text is rendered as an article even when it also carries a video. */
  lemma ArticleBeatsVideo(d: OgData, providers: seq<string>, articleHtml: string, embeddedHtml: string)
    requires TypeMentions(d, "article") && HasText(d)
    ensures GenericHtml(d, providers, articleHtml, embeddedHtml) == Some(articleHtml)
  {
  }

  /** A page with both a video and an image shows the video. */
  lemma VideoBeatsImage(d: OgData, providers: seq<string>, articleHtml: string, embeddedHtml: string)
    requires IsVideo(d) && IsImage(d) && !IsArticle(d)
    ensures GenericHtml(d, providers, articleHtml, embeddedHtml) == Some(VideoHtml(d))
  {
  }

  /** With a photo type, an empty image and a usable thumbnail, `generic_html` renders nothing:
      it commits to the image branch and `image_html` is nil. */
  lemma EmptyImageRendersNothing(d: OgData, providers: seq<string>, articleHtml: string, embeddedHtml: string)
    requires d.ogType == Some("photo") && d.image == Some("") && !Blank(d.thumbnailUrl)
    ensures GenericHtml(d, providers, articleHtml, embeddedHtml) == None
  {
    assert OccursAt("photo", "photo", 0);
    assert !TypeMentions(d, "video") by {
      assert forall i: nat :: !OccursAt("photo", "video", i);
    }
    assert !TypeMentions(d, "photostream") by {
      assert forall i: nat :: !OccursAt("photo", "photostream", i);
    }
    assert !TypeMentions(d, "article") by {
      assert forall i: nat :: !OccursAt("photo", "article", i);
    }
  }

  // ---------------------------------------------------------------------------
  // rewrite_https and to_html
  // ---------------------------------------------------------------------------

  const Http: string := "http://"
  const Https: string := "https://"

  /** `gsub("http://", "https://")`: every occurrence, scanning left to right. */
  function ReplaceHttp(s: string): string
    decreases |s|
  {
    if |s| < 7 then s
    else if s[..7] == Http then Https + ReplaceHttp(s[7..])
    else [s[0]] + ReplaceHttp(s[1..])
  }

  /** A text that starts with "http://" is rewritten to one that starts with 'h'. */
  lemma RewrittenHttpStartsWithH(t: string)
    ensures |t| >= 7 && t[..7] == Http ==> ReplaceHttp(t) != [] && ReplaceHttp(t)[0] == 'h'
  {
  }

  /** A rewritten text that starts with characters other than 'h' started with them before. */
  lemma {:induction false} ReplaceHttpKeepsPrefix(t: string, p: string)
    requires forall k :: 0 <= k < |p| ==> p[k] != 'h'
    ensures StartsWith(ReplaceHttp(t), p) ==> StartsWith(t, p)
    decreases |t|
  {
    if p != [] && |t| >= 7 {
      if t[..7] == Http {
        RewrittenHttpStartsWithH(t);
        StartsWithFirst(ReplaceHttp(t), p);
      } else {
        var r := ReplaceHttp(t[1..]);
        assert ReplaceHttp(t) == [t[0]] + r;
        ReplaceHttpKeepsPrefix(t[1..], p[1..]);
        if StartsWith(ReplaceHttp(t), p) {
          assert r[..|p| - 1] == ReplaceHttp(t)[..|p|][1..];
          assert t[..|p|] == [t[0]] + t[1..][..|p| - 1];
        }
      }
    }
  }

  /** No "http://" survives the rewrite, not even across a replacement's edge. */
  lemma {:induction false} ReplaceHttpLeavesNoHttp(s: string)
    ensures !Contains(ReplaceHttp(s), Http)
    decreases |s|
  {
    if |s| >= 7 {
      if s[..7] == Http {
        ReplaceHttpLeavesNoHttp(s[7..]);
        NoHttpAfterHttps(ReplaceHttp(s[7..]));
      } else {
        ReplaceHttpLeavesNoHttp(s[1..]);
        NoHttpAfterKept(s);
      }
    }
  }

  /** "https://" followed by text without "http://" holds no "http://". */
  lemma NoHttpAfterHttps(rest: string)
    requires !Contains(rest, Http)
    ensures !Contains(Https + rest, Http)
  {
    var r := Https + rest;
    forall i: nat | i <= |r| ensures !OccursAt(r, Http, i) {
      if i >= 8 {
        OccursInTail(Https, rest, Http, i);
      } else if i + 7 <= |r| {
        assert r[i..i + 7][0] == r[i] == Https[i];
        if i == 0 {
          assert r[i..i + 7][4] == r[4] == 's';
        }
      }
    }
  }

  /** Keeping the first character of a text that does not start with "http://" creates no
      "http://" in front of the rewritten rest. */
  lemma NoHttpAfterKept(s: string)
    requires |s| >= 7 && s[..7] != Http
    requires !Contains(ReplaceHttp(s[1..]), Http)
    ensures !Contains([s[0]] + ReplaceHttp(s[1..]), Http)
  {
    var rest := ReplaceHttp(s[1..]);
    var r := [s[0]] + rest;
    forall i: nat | i <= |r| ensures !OccursAt(r, Http, i) {
      if i >= 1 {
        OccursInTail([s[0]], rest, Http, i);
      } else if |r| >= 7 {
        assert r[..7][0] == s[0] && r[..7][1..] == rest[..6];
        assert Http == ['h'] + "ttp://" && Http[1..] == "ttp://";
        ReplaceHttpKeepsPrefix(s[1..], "ttp://");
        assert s[..7] == [s[0]] + s[1..][..6];
      }
    }
  }

  /** Text without "http://" is left as it is. */
  lemma {:induction false} ReplaceHttpIdentity(s: string)
    requires !Contains(s, Http)
    ensures ReplaceHttp(s) == s
    decreases |s|
  {
    if |s| >= 7 {
      assert !OccursAt(s, Http, 0);
      assert !Contains(s[1..], Http) by {
        forall i: nat | OccursAt(s[1..], Http, i) ensures false {
          assert s[1..][i..i + 7] == s[i + 1..i + 1 + 7];
          assert OccursAt(s, Http, i + 1);
        }
      }
      ReplaceHttpIdentity(s[1..]);
    }
  }

  lemma ReplaceHttpFacts(s: string)
    ensures !Contains(ReplaceHttp(s), Http)
    ensures !Contains(s, Http) ==> ReplaceHttp(s) == s
  {
    ReplaceHttpLeavesNoHttp(s);
    if !Contains(s, Http) {
      ReplaceHttpIdentity(s);
    }
  }

  /** Dropping the first character of a text without "http://" leaves a text without it. */
  lemma NoHttpInTail(a: string)
    requires a != [] && !Contains(a, Http)
    ensures !Contains(a[1..], Http)
  {
    forall i: nat | i <= |a[1..]| ensures !OccursAt(a[1..], Http, i) {
      if i + 7 <= |a[1..]| {
        assert a[1..][i..i + 7] == a[i + 1..i + 1 + 7];
        assert !OccursAt(a, Http, i + 1);
      }
    }
  }

  /** Only the first character of "http://" is an 'h'. */
  lemma HttpHasOneH(m: nat)
    requires 1 <= m < 7
    ensures Http[m] != 'h'
  {
  }

  /** A non-empty text without "http://" followed by one that starts with "http://" does not start
      with "http://": no proper suffix of "http://" starts it again. */
  lemma NoHttpAtJunction(a: string, rest: string)
    requires a != [] && !Contains(a, Http) && StartsWith(rest, Http)
    ensures |a + rest| >= 7 && (a + rest)[..7] != Http
  {
    var s := a + rest;
    if |a| >= 7 {
      assert s[..7] == a[..7];
      assert !OccursAt(a, Http, 0);
    } else {
      assert s[|a|] == rest[0] == Http[0];
      HttpHasOneH(|a|);
      assert s[..7][|a|] != Http[|a|];
    }
  }

  /** A text without "http://" in front of one that starts with "http://" is kept as it is. */
  lemma {:induction false} ReplaceHttpPastClean(a: string, rest: string)
    requires !Contains(a, Http) && StartsWith(rest, Http)
    ensures ReplaceHttp(a + rest) == a + ReplaceHttp(rest)
    decreases |a|
  {
    if a == [] {
      assert a + rest == rest;
    } else {
      var s := a + rest;
      NoHttpAtJunction(a, rest);
      assert ReplaceHttp(s) == [s[0]] + ReplaceHttp(s[1..]);
      assert s[1..] == a[1..] + rest;
      NoHttpInTail(a);
      ReplaceHttpPastClean(a[1..], rest);
      assert [a[0]] + a[1..] == a;
    }
  }

  /** `gsub("http://", "https://")` is splitting on "http://" and joining with "https://": pieces
      without "http://", joined by "http://", come back joined by "https://" and otherwise intact. */
  lemma {:induction false} ReplaceHttpJoin(xs: seq<string>)
    requires forall i :: 0 <= i < |xs| ==> !Contains(xs[i], Http)
    ensures ReplaceHttp(Join(xs, Http)) == Join(xs, Https)
  {
    if |xs| == 1 {
      ReplaceHttpIdentity(xs[0]);
    } else if |xs| > 1 {
      var tail := Join(xs[1..], Http);
      assert xs[0] + Http + tail == xs[0] + (Http + tail);
      assert StartsWith(Http + tail, Http);
      ReplaceHttpPastClean(xs[0], Http + tail);
      assert (Http + tail)[..7] == Http && (Http + tail)[7..] == tail;
      ReplaceHttpJoin(xs[1..]);
      assert xs[0] + (Https + Join(xs[1..], Https)) == xs[0] + Https + Join(xs[1..], Https);
    }
  }

  /** A character that does not start "http://" in front of a text without "http://" that the
      rest of `s` starts with makes a text without "http://". */
  lemma KeptPieceClean(s: string, t: string)
    requires |s| >= 1 && (|s| < 7 || s[..7] != Http)
    requires !Contains(t, Http) && StartsWith(s[1..], t)
    ensures !Contains([s[0]] + t, Http)
  {
    var p := [s[0]] + t;
    assert p == s[..1 + |t|];
    forall i: nat | i <= |p| ensures !OccursAt(p, Http, i) {
      if i >= 1 {
        OccursInTail([s[0]], t, Http, i);
      } else if |p| >= 7 {
        assert p[..7] == s[..7];
      }
    }
  }

  /** Every text is its pieces between the occurrences of "http://", joined by "http://". */
  lemma {:induction false} SplitOnHttp(s: string) returns (xs: seq<string>)
    ensures xs != [] && Join(xs, Http) == s
    ensures forall i :: 0 <= i < |xs| ==> !Contains(xs[i], Http)
    decreases |s|
  {
    if |s| < 7 {
      xs := [s];
    } else if s[..7] == Http {
      var tail := SplitOnHttp(s[7..]);
      xs := [""] + tail;
      assert xs[1..] == tail;
      assert forall i :: 1 <= i < |xs| ==> xs[i] == tail[i - 1];
      assert Join(xs, Http) == "" + Http + Join(tail, Http);
      assert s == s[..7] + s[7..];
    } else {
      var tail := SplitOnHttp(s[1..]);
      JoinStartsWithFirst(tail, Http);
      KeptPieceClean(s, tail[0]);
      xs := [[s[0]] + tail[0]] + tail[1..];
      assert forall i :: 1 <= i < |xs| ==> xs[i] == tail[i];
      assert xs[1..] == tail[1..];
      if |tail| > 1 {
        assert Join(xs, Http) == [s[0]] + (tail[0] + Http + Join(tail[1..], Http));
      }
      assert s == [s[0]] + s[1..];
    }
  }

  /** The rewrite is thus determined for every text: split on "http://", join with "https://". */
  lemma ReplaceHttpSplits(s: string)
    ensures exists xs: seq<string> ::
      Join(xs, Http) == s && ReplaceHttp(s) == Join(xs, Https) && forall i :: 0 <= i < |xs| ==> !Contains(xs[i], Http)
  {
    var xs := SplitOnHttp(s);
    ReplaceHttpJoin(xs);
  }

  /** `rewrite_https(html)`: nil stays nil; for a URL whose host is on the rewrite list every
      "http://" becomes "https://"; otherwise the html is returned as it is. */
  function RewriteHttps(html: Option<string>, urlHost: Option<string>, rewrites: seq<string>): (r: Option<string>)
    ensures html.None? ==> r.None?
    ensures html.Some? && OneboxUrl.HostMatches(urlHost, rewrites) ==> r == Some(ReplaceHttp(html.value))
    ensures html.Some? && OneboxUrl.HostMatches(urlHost, rewrites) ==> r.Some? && !Contains(r.value, Http)
    ensures html.Some? && !OneboxUrl.HostMatches(urlHost, rewrites) ==> r == html
    ensures html.Some? && !Contains(html.value, Http) ==> r == html
  {
    if html.None? then None
    else if OneboxUrl.HostMatches(urlHost, rewrites) then
      ReplaceHttpFacts(html.value);
      Some(ReplaceHttp(html.value))
    else html
  }

  /** `to_html`: `generic_html`, rewritten to https for the hosts on the rewrite list. */
  function ToHtml(d: OgData, htmlProviders: seq<string>, rewrites: seq<string>, urlHost: Option<string>,
                  articleHtml: string, embeddedHtml: string): (r: Option<string>)
    ensures r.None? <==> GenericHtml(d, htmlProviders, articleHtml, embeddedHtml).None?
    ensures !OneboxUrl.HostMatches(urlHost, rewrites) ==> r == GenericHtml(d, htmlProviders, articleHtml, embeddedHtml)
    ensures r.Some? && OneboxUrl.HostMatches(urlHost, rewrites) ==> !Contains(r.value, Http)
  {
    RewriteHttps(GenericHtml(d, htmlProviders, articleHtml, embeddedHtml), urlHost, rewrites)
  }

  // ---------------------------------------------------------------------------
  // placeholder_html
  // ---------------------------------------------------------------------------

  /** `placeholder_html`: an article, then an image for visual media, then an article for
      embeds with text; otherwise what `to_html` renders. Only the fallback is rewritten to https. */
  function PlaceholderHtml(d: OgData, htmlProviders: seq<string>, rewrites: seq<string>, urlHost: Option<string>,
                           articleHtml: string, embeddedHtml: string): (r: Option<string>)
    ensures r == Some(articleHtml) || r == ImageHtml(d) || r == ToHtml(d, htmlProviders, rewrites, urlHost, articleHtml, embeddedHtml)
    ensures !HasImage(d) && !HasText(d) ==> r == ToHtml(d, htmlProviders, rewrites, urlHost, articleHtml, embeddedHtml)
    ensures IsArticle(d) ==> r == Some(articleHtml)
    ensures !IsArticle(d) && HasImage(d) && (IsVideo(d) || IsImage(d)) ==> r == ImageHtml(d)
    ensures !IsArticle(d) && !(HasImage(d) && (IsVideo(d) || IsImage(d))) && HasText(d) && IsEmbedded(d, htmlProviders) ==> r == Some(articleHtml)
    ensures !IsArticle(d) && !(HasImage(d) && (IsVideo(d) || IsImage(d))) && !(HasText(d) && IsEmbedded(d, htmlProviders)) ==> r == ToHtml(d, htmlProviders, rewrites, urlHost, articleHtml, embeddedHtml)
  {
    if IsArticle(d) then Some(articleHtml)
    else if HasImage(d) && (IsVideo(d) || IsImage(d)) then ImageHtml(d)
    else if HasText(d) && IsEmbedded(d, htmlProviders) then Some(articleHtml)
    else ToHtml(d, htmlProviders, rewrites, urlHost, articleHtml, embeddedHtml)
  }

  /** A video page with an image has a still image as its placeholder, while `generic_html` shows
      the video itself. */
  lemma PlaceholderShowsStillOfVideo(d: OgData, providers: seq<string>, rewrites: seq<string>, urlHost: Option<string>,
                                     articleHtml: string, embeddedHtml: string)
    requires IsVideo(d) && HasImage(d) && !IsArticle(d)
    ensures PlaceholderHtml(d, providers, rewrites, urlHost, articleHtml, embeddedHtml) == ImageHtml(d)
    ensures GenericHtml(d, providers, articleHtml, embeddedHtml) == Some(VideoHtml(d))
  {
  }

  /** Whenever `placeholder_html` and `generic_html` both pick the article, the placeholder is the
      article markup unchanged, and it differs from `to_html` only by the https rewrite. */
  lemma PlaceholderAgreesOnArticles(d: OgData, providers: seq<string>, rewrites: seq<string>, urlHost: Option<string>,
                                    articleHtml: string, embeddedHtml: string)
    requires IsArticle(d)
    ensures PlaceholderHtml(d, providers, rewrites, urlHost, articleHtml, embeddedHtml) == Some(articleHtml)
    ensures ToHtml(d, providers, rewrites, urlHost, articleHtml, embeddedHtml) == RewriteHttps(Some(articleHtml), urlHost, rewrites)
  {
  }

  /** Without an image for visual media and without text for an embed, the placeholder is exactly
      the full rendering, and in particular the same form `generic_html` picks. */
  lemma PlaceholderFallsBackToHtml(d: OgData, providers: seq<string>, rewrites: seq<string>, urlHost: Option<string>,
                                   articleHtml: string, embeddedHtml: string)
    requires !IsArticle(d)
    requires !(HasImage(d) && (IsVideo(d) || IsImage(d)))
    requires !(HasText(d) && IsEmbedded(d, providers))
    ensures PlaceholderHtml(d, providers, rewrites, urlHost, articleHtml, embeddedHtml) ==
            ToHtml(d, providers, rewrites, urlHost, articleHtml, embeddedHtml)
    ensures GenericForm(d, providers) != ImageForm
  {
  }
}
