/**
 * The link-preview middleware of the Pages deployment: for an HTML response it
 * injects Open Graph and Twitter-card meta tags right after the first `<head>`,
 * choosing the title and description from the exact request path.
 * The origin response (`await next()`) and its body text (`await response.text()`)
 * arrive as inputs; the URL is given together with its parsed pathname.
 * The long literals of the source (the Zapenu title and description, the image URL)
 * are declared as concatenations of short pieces with the same characters: proving
 * that a literal of a hundred characters has no `$` is far more costly for the solver
 * than proving it of each piece.
 */
module Middleware {

  import opened Options
  import opened JsString

  /** Response headers by lower-case name (`Headers.get` matches names case-insensitively). */
  type Headers = map<string, string>

  datatype Request = Request(url: string, pathname: string)

  datatype Response = Response(body: string, status: int, statusText: string, headers: Headers)

  datatype PageMeta = PageMeta(title: string, description: string)

  /** One `<meta property=...>` (Open Graph) or `<meta name=...>` (Twitter card) element. */
  datatype MetaTag = Property(key: string, content: string) | Name(key: string, content: string)

  const HeadTag: string := "<head>"

  /** The preview image, the same for every page. */
  const Image: string := ImageHost + ImagePath
  const ImageHost: string := "https://assets.alejotamayo.com"
  const ImagePath: string := "/traje-alejandro.png"

  const Author: string := "Alejandro Vergara Tamayo"

  /** The texts for `/zapenu` (the long ones are kept in pieces of at most a few dozen characters). */
  const ZapenuMeta: PageMeta := PageMeta(ZapenuName + " | " + Author, ZapenuPitch + ZapenuStack + ZapenuFeatures)
  const ZapenuName: string := "Zapenu - Digital Ordering Platform"
  const ZapenuPitch: string := "Plataforma multi-tenant de pedidos digitales"
  const ZapenuStack: string := " con arquitectura de microservicios"
  const ZapenuFeatures: string := ", pagos integrados y +10k items por tienda"

  /** The texts for every other path. */
  const DefaultMeta: PageMeta := PageMeta(DefaultTitle, Author)
  const DefaultTitle: string := "Alejandro | Desarrollador Backend"

  /** `response.headers.get('content-type')`. */
  function ContentType(headers: Headers): Option<string> {
    if "content-type" in headers then Some(headers["content-type"]) else None
  }

  /**
   * The gate `!contentType || !contentType.includes('text/html')`, negated. `""` is falsy,
   * but it cannot include `text/html` either, so the falsiness test adds nothing.
   */
  predicate IsHtml(contentType: Option<string>)
    ensures IsHtml(contentType) <==> contentType.Some? && Includes(contentType.value, "text/html")
  {
    contentType.Some? && contentType.value != "" && Includes(contentType.value, "text/html")
  }

  /** A `content-type` header is present and includes `text/html`. */
  predicate HtmlTyped(headers: Headers) {
    "content-type" in headers && Includes(headers["content-type"], "text/html")
  }

  /** The gate, read through `Headers.get`, passes exactly the responses whose header names HTML. */
  lemma GateOnHeaders(headers: Headers)
    ensures IsHtml(ContentType(headers)) <==> HtmlTyped(headers)
  {
  }

  /** The Zapenu texts for the path `/zapenu` exactly, the default texts for every other path. */
  function MetaFor(pathname: string): (r: PageMeta)
    ensures r == ZapenuMeta || r == DefaultMeta
  {
    if pathname == "/zapenu" then ZapenuMeta else DefaultMeta
  }

  /** The tags that precede `og:url` in the injected block. */
  function TagsBeforeUrl(meta: PageMeta): seq<MetaTag> {
    [ Property("og:title", meta.title),
      Property("og:description", meta.description),
      Property("og:image", Image),
      Property("og:image:width", "500"),
      Property("og:image:height", "500"),
      Property("og:type", "website") ]
  }

  /** The tags that follow `og:url` in the injected block. */
  function TagsAfterUrl(meta: PageMeta): seq<MetaTag> {
    [ Name("twitter:card", "summary_large_image"),
      Name("twitter:title", meta.title),
      Name("twitter:description", meta.description),
      Name("twitter:image", Image) ]
  }

  /** Eleven tags; the seventh, `og:url`, is the one that carries the request URL. */
  function MetaTags(meta: PageMeta, url: string): (r: seq<MetaTag>)
    ensures |r| == 11 && r[6] == Property("og:url", url)
  {
    TagsBeforeUrl(meta) + [Property("og:url", url)] + TagsAfterUrl(meta)
  }

  /** `<meta property="og:title" content="` and `<meta name="twitter:title" content="`. */
  function Opening(t: MetaTag): string {
    match t
    case Property(key, _) => PropertyOpen + key + ContentAttr
    case Name(key, _) => NameOpen + key + ContentAttr
  }

  const PropertyOpen: string := "<meta property=\""
  const NameOpen: string := "<meta name=\""
  const ContentAttr: string := "\" content=\""
  const TagClose: string := "\">"
  const Indent: string := "    "
  const Newline: string := "\n"
  const Trailer: string := "  "

  function RenderTag(t: MetaTag): string {
    Opening(t) + t.content + TagClose
  }

  /** Each tag on its own line, indented by four spaces, as in the template literal. */
  function RenderLines(tags: seq<MetaTag>): string {
    if tags == [] then "" else Line(tags[0]) + RenderLines(tags[1..])
  }

  function Line(t: MetaTag): string {
    Indent + RenderTag(t) + Newline
  }

  /** The template literal: a newline, the tag lines, and the two-space indentation before the closing backtick. */
  function MetaBlock(meta: PageMeta, url: string): string {
    Newline + RenderLines(MetaTags(meta, url)) + Trailer
  }

  /**
   * What the `Response` constructor of the Fetch standard accepts for a string body: a
   * status in 200..599 (otherwise a RangeError), and not a null-body status 204, 205 or
   * 304 (otherwise a TypeError; 101 and 103 are already out of range).
   */
  predicate ConstructorAccepts(status: int) {
    200 <= status <= 599 && status !in {204, 205, 304}
  }

  /**
   * `onRequest` as written: `html.replace('<head>', `<head>${metaTags}`)`, with the template
   * expanded. `None` is the exception `new Response(modifiedHtml, ...)` throws.
   */
  function OnRequestAsWritten(req: Request, origin: Response): (r: Option<Response>)
    ensures !HtmlTyped(origin.headers) ==> r == Some(origin)
    ensures HtmlTyped(origin.headers) ==> (r.Some? <==> ConstructorAccepts(origin.status))
    ensures r.Some? ==> r.value.status == origin.status && r.value.statusText == origin.statusText && r.value.headers == origin.headers
    ensures r.Some? && !Includes(origin.body, HeadTag) ==> r.value.body == origin.body
  {
    if !IsHtml(ContentType(origin.headers)) then Some(origin)
    else if !ConstructorAccepts(origin.status) then None
    else
      var block := MetaBlock(MetaFor(req.pathname), req.url);
      Some(Response(ReplaceFirst(origin.body, HeadTag, HeadTag + block), origin.status, origin.statusText, origin.headers))
  }

  /** `onRequest` as intended: the block is spliced in verbatim after the first `<head>`. */
  function OnRequest(req: Request, origin: Response): (r: Option<Response>)
    ensures !HtmlTyped(origin.headers) ==> r == Some(origin)
    ensures HtmlTyped(origin.headers) ==> (r.Some? <==> ConstructorAccepts(origin.status))
    ensures r.Some? ==> r.value.status == origin.status && r.value.statusText == origin.statusText && r.value.headers == origin.headers
    ensures r.Some? && !Includes(origin.body, HeadTag) ==> r.value.body == origin.body
  {
    if !IsHtml(ContentType(origin.headers)) then Some(origin)
    else if !ConstructorAccepts(origin.status) then None
    else
      var block := MetaBlock(MetaFor(req.pathname), req.url);
      Some(Response(InsertAfterFirst(origin.body, HeadTag, block), origin.status, origin.statusText, origin.headers))
  }

  // ---------------------------------------------------------------------------
  // Page selection and the contents of the block

  /** The Zapenu texts are chosen exactly for `/zapenu`. */
  lemma ZapenuExactly(pathname: string)
    ensures MetaFor(pathname) == ZapenuMeta <==> pathname == "/zapenu"
  {
    assert ZapenuMeta.title != DefaultMeta.title by {
      assert |ZapenuMeta.title| != |DefaultMeta.title|;
    }
  }

  lemma NearMissesGetDefault()
    ensures MetaFor("/zapenu/") == DefaultMeta && MetaFor("/Zapenu") == DefaultMeta && MetaFor("/") == DefaultMeta
  {
    assert "/zapenu/" != "/zapenu" by { assert |"/zapenu/"| != |"/zapenu"|; }
    assert "/Zapenu" != "/zapenu" by { assert "/Zapenu"[1] != "/zapenu"[1]; }
  }

  /** `og:url` carries the request URL, and it is the only tag with that key. */
  lemma OgUrlIsRequestUrl(meta: PageMeta, url: string)
    ensures Property("og:url", url) in MetaTags(meta, url)
    ensures forall k :: 0 <= k < |MetaTags(meta, url)| ==>
              (MetaTags(meta, url)[k].key == "og:url" ==> MetaTags(meta, url)[k] == Property("og:url", url))
  {
    var tags := MetaTags(meta, url);
    assert tags[6] == Property("og:url", url);
    forall k | 0 <= k < |tags| && k != 6 ensures tags[k].key != "og:url" {
      if k < 6 {
        assert tags[k].key[..3] == "og:" && |tags[k].key| != 6;
      } else {
        assert tags[k].key[0] == 't';
      }
    }
  }

  /** Both title tags carry the chosen title and both description tags the chosen description. */
  lemma TitlesAndDescriptions(meta: PageMeta, url: string)
    ensures Property("og:title", meta.title) in MetaTags(meta, url)
    ensures Name("twitter:title", meta.title) in MetaTags(meta, url)
    ensures Property("og:description", meta.description) in MetaTags(meta, url)
    ensures Name("twitter:description", meta.description) in MetaTags(meta, url)
  {
    var tags := MetaTags(meta, url);
    assert tags[0] == Property("og:title", meta.title);
    assert tags[1] == Property("og:description", meta.description);
    assert tags[8] == Name("twitter:title", meta.title);
    assert tags[9] == Name("twitter:description", meta.description);
  }

  /** Both image tags carry the same image, whatever the page. */
  lemma SameImageEverywhere(meta: PageMeta, url: string)
    ensures Property("og:image", Image) in MetaTags(meta, url)
    ensures Name("twitter:image", Image) in MetaTags(meta, url)
  {
    var tags := MetaTags(meta, url);
    assert tags[2] == Property("og:image", Image);
    assert tags[10] == Name("twitter:image", Image);
  }

  lemma {:induction false} RenderLinesConcat(a: seq<MetaTag>, b: seq<MetaTag>)
    ensures RenderLines(a + b) == RenderLines(a) + RenderLines(b)
  {
    if a == [] {
      assert a + b == b;
    } else {
      assert (a + b)[0] == a[0] && (a + b)[1..] == a[1..] + b;
      RenderLinesConcat(a[1..], b);
    }
  }

  /** Every tag of the list appears, rendered, in the rendered lines. */
  lemma {:induction false} TagRendered(tags: seq<MetaTag>, t: MetaTag)
    requires t in tags
    ensures Includes(RenderLines(tags), RenderTag(t))
  {
    if tags[0] == t {
      TagInLine(t);
      OccursInLeft(Line(t), RenderLines(tags[1..]), RenderTag(t), 4);
    } else {
      assert t in tags[1..];
      TagRendered(tags[1..], t);
      var i :| OccursAt(RenderLines(tags[1..]), RenderTag(t), i);
      OccursInRight(Line(tags[0]), RenderLines(tags[1..]), RenderTag(t), i);
    }
  }

  lemma TagInLine(t: MetaTag)
    ensures OccursAt(Line(t), RenderTag(t), 4)
  {
    assert Line(t)[4..4 + |RenderTag(t)|] == RenderTag(t);
  }

  // ---------------------------------------------------------------------------
  // The response of the intended middleware

  /**
   * For an HTML response whose first `<head>` starts at `i`, the body grows by exactly the
   * block, which sits right after that `<head>`; the text before and after is preserved.
   */
  lemma OnRequestSplices(req: Request, origin: Response, i: nat)
    requires IsHtml(ContentType(origin.headers)) && ConstructorAccepts(origin.status)
    requires OccursAt(origin.body, HeadTag, i) && forall j :: 0 <= j < i ==> !OccursAt(origin.body, HeadTag, j)
    ensures var block := MetaBlock(MetaFor(req.pathname), req.url);
      var out := OnRequest(req, origin).value.body;
      var h := i + |HeadTag|;
      && |out| == |origin.body| + |block|
      && out[..h] == origin.body[..h]
      && out[h..h + |block|] == block
      && out[h + |block|..] == origin.body[h..]
  {
    InsertAfterFirstAt(origin.body, HeadTag, MetaBlock(MetaFor(req.pathname), req.url), i);
  }

  /** Every tag of the list appears, rendered, in the injected block. */
  lemma TagInBlock(meta: PageMeta, url: string, t: MetaTag)
    requires t in MetaTags(meta, url)
    ensures Includes(MetaBlock(meta, url), RenderTag(t))
  {
    var lines := RenderLines(MetaTags(meta, url));
    TagRendered(MetaTags(meta, url), t);
    var k :| OccursAt(lines, RenderTag(t), k);
    OccursInRight(Newline, lines, RenderTag(t), k);
    OccursInLeft(Newline + lines, Trailer, RenderTag(t), 1 + k);
  }

  /**
   * When an HTML page with an accepted status has a `<head>`, the output carries the `og:url` tag with the request
   * URL, and the title and description tags with the texts chosen for the path.
   */
  lemma OnRequestAdvertises(req: Request, origin: Response)
    requires IsHtml(ContentType(origin.headers)) && ConstructorAccepts(origin.status) && Includes(origin.body, HeadTag)
    ensures Includes(OnRequest(req, origin).value.body, RenderTag(Property("og:url", req.url)))
    ensures Includes(OnRequest(req, origin).value.body, RenderTag(Property("og:title", MetaFor(req.pathname).title)))
    ensures Includes(OnRequest(req, origin).value.body, RenderTag(Name("twitter:title", MetaFor(req.pathname).title)))
    ensures Includes(OnRequest(req, origin).value.body, RenderTag(Property("og:description", MetaFor(req.pathname).description)))
    ensures Includes(OnRequest(req, origin).value.body, RenderTag(Name("twitter:description", MetaFor(req.pathname).description)))
  {
    var meta := MetaFor(req.pathname);
    var block := MetaBlock(meta, req.url);
    OgUrlIsRequestUrl(meta, req.url);
    TitlesAndDescriptions(meta, req.url);
    forall t | t in MetaTags(meta, req.url)
      ensures Includes(OnRequest(req, origin).value.body, RenderTag(t))
    {
      TagInBlock(meta, req.url, t);
      InsertedBlockIncluded(origin.body, HeadTag, block, RenderTag(t));
    }
  }

  // ---------------------------------------------------------------------------
  // The middleware as written: the replacement string is a template

  /** The replacement text up to the request URL, and after it. */
  function UrlPrefix(meta: PageMeta): string {
    HeadTag + Newline + RenderLines(TagsBeforeUrl(meta)) + Indent + Opening(Property("og:url", ""))
  }

  function UrlSuffix(meta: PageMeta): string {
    TagClose + Newline + RenderLines(TagsAfterUrl(meta)) + Trailer
  }

  lemma BlockAroundUrl(meta: PageMeta, url: string)
    ensures HeadTag + MetaBlock(meta, url) == UrlPrefix(meta) + url + UrlSuffix(meta)
  {
    BlockAroundContent(TagsBeforeUrl(meta), "og:url", url, TagsAfterUrl(meta));
  }

  /** The rendered block of `bf + [Property(key, c)] + af`, cut around the content `c`. */
  lemma BlockAroundContent(bf: seq<MetaTag>, key: string, c: string, af: seq<MetaTag>)
    ensures HeadTag + (Newline + RenderLines(bf + [Property(key, c)] + af) + Trailer)
         == (HeadTag + Newline + RenderLines(bf) + Indent + Opening(Property(key, ""))) + c
            + (TagClose + Newline + RenderLines(af) + Trailer)
  {
    var t := Property(key, c);
    RenderLinesConcat(bf + [t], af);
    RenderLinesConcat(bf, [t]);
    assert RenderLines([t]) == Line(t) + RenderLines([]);
    assert RenderLines(bf + [t] + af) == RenderLines(bf) + (Indent + (Opening(t) + c + TagClose) + Newline) + RenderLines(af);
    Regroup(HeadTag, Newline, RenderLines(bf), Indent, Opening(t), c, TagClose, RenderLines(af), Trailer);
  }

  lemma Regroup(h: string, n: string, lb: string, ind: string, op: string, c: string, tc: string, la: string, tr: string)
    ensures h + (n + (lb + (ind + (op + c + tc) + n) + la) + tr)
         == (h + n + lb + ind + op) + c + (tc + n + la + tr)
  {
  }

  lemma TagDollarFree(t: MetaTag)
    requires '$' !in t.key && '$' !in t.content
    ensures '$' !in RenderTag(t)
  {
    assert '$' !in PropertyOpen && '$' !in NameOpen && '$' !in ContentAttr && '$' !in TagClose;
  }

  /** No tag whose key and content are free of `$` renders a `$`. */
  lemma {:induction false} LinesDollarFree(tags: seq<MetaTag>)
    requires forall k :: 0 <= k < |tags| ==> '$' !in tags[k].key && '$' !in tags[k].content
    ensures '$' !in RenderLines(tags)
  {
    if tags != [] {
      TagDollarFree(tags[0]);
      LinesDollarFree(tags[1..]);
    }
  }

  lemma ZapenuTextDollarFree()
    ensures '$' !in ZapenuMeta.title && '$' !in ZapenuMeta.description
  {
    NameDollarFree();
    PitchDollarFree();
    StackDollarFree();
    FeaturesDollarFree();
  }

  lemma NameDollarFree()
    ensures '$' !in ZapenuName && '$' !in Author
  {
  }

  lemma PitchDollarFree()
    ensures '$' !in ZapenuPitch
  {
  }

  lemma StackDollarFree()
    ensures '$' !in ZapenuStack
  {
  }

  lemma FeaturesDollarFree()
    ensures '$' !in ZapenuFeatures
  {
  }

  lemma DefaultTextDollarFree()
    ensures '$' !in DefaultMeta.title && '$' !in DefaultMeta.description && '$' !in Image
  {
    NameDollarFree();
    ImageDollarFree();
    assert '$' !in DefaultTitle;
  }

  lemma ImageDollarFree()
    ensures '$' !in Image
  {
    assert '$' !in ImageHost && '$' !in ImagePath;
  }

  /** The tags around `og:url` are free of `$` when the page's texts are. */
  lemma BeforeUrlDollarFree(meta: PageMeta)
    requires '$' !in meta.title && '$' !in meta.description && '$' !in Image
    ensures '$' !in RenderLines(TagsBeforeUrl(meta))
  {
    LinesDollarFree(TagsBeforeUrl(meta));
  }

  lemma AfterUrlDollarFree(meta: PageMeta)
    requires '$' !in meta.title && '$' !in meta.description && '$' !in Image
    ensures '$' !in RenderLines(TagsAfterUrl(meta))
  {
    LinesDollarFree(TagsAfterUrl(meta));
  }

  /** Neither page's texts, nor the image, nor the fixed tags contain a `$`. */
  lemma TemplateTextDollarFree(meta: PageMeta)
    requires meta == ZapenuMeta || meta == DefaultMeta
    ensures '$' !in UrlPrefix(meta) && '$' !in UrlSuffix(meta)
  {
    ZapenuTextDollarFree();
    DefaultTextDollarFree();
    TextAroundUrlDollarFree(meta);
  }

  /** The replacement text around the URL is free of `$` when the page's texts are. */
  lemma TextAroundUrlDollarFree(meta: PageMeta)
    requires '$' !in meta.title && '$' !in meta.description && '$' !in Image
    ensures '$' !in UrlPrefix(meta) && '$' !in UrlSuffix(meta)
  {
    BeforeUrlDollarFree(meta);
    AfterUrlDollarFree(meta);
    assert '$' !in Opening(Property("og:url", "")) by {
      assert '$' !in PropertyOpen && '$' !in ContentAttr;
    }
    assert '$' !in TagClose;
  }

  /**
   * The middleware as written behaves like the intended one fed with the URL after
   * template expansion: `$$`, `$&`, `` $` `` and `$'` inside the request URL are rewritten
   * before they reach the `og:url` tag.
   */
  lemma AsWrittenExpandsUrl(req: Request, origin: Response)
    requires IsHtml(ContentType(origin.headers)) && Includes(origin.body, HeadTag)
    ensures var html := origin.body;
      var i := IndexOf(html, HeadTag).value;
      var url' := Substitute(req.url, HeadTag, html[..i], html[i + |HeadTag|..]);
      OnRequestAsWritten(req, origin) == OnRequest(Request(url', req.pathname), origin)
  {
    var html := origin.body;
    var i := IndexOf(html, HeadTag).value;
    var url' := Substitute(req.url, HeadTag, html[..i], html[i + |HeadTag|..]);
    TemplateTextDollarFree(MetaFor(req.pathname));
    ReplacedBody(MetaFor(req.pathname), req.url, html);
  }

  /** The body as written, when the fixed text around the URL has no `$`: the splice of the expanded URL's block. */
  lemma ReplacedBody(meta: PageMeta, url: string, html: string)
    requires '$' !in UrlPrefix(meta) && '$' !in UrlSuffix(meta)
    requires Includes(html, HeadTag)
    ensures var i := IndexOf(html, HeadTag).value;
      var url' := Substitute(url, HeadTag, html[..i], html[i + |HeadTag|..]);
      ReplaceFirst(html, HeadTag, HeadTag + MetaBlock(meta, url)) == InsertAfterFirst(html, HeadTag, MetaBlock(meta, url'))
  {
    var i := IndexOf(html, HeadTag).value;
    var url' := Substitute(url, HeadTag, html[..i], html[i + |HeadTag|..]);
    BlockAroundUrl(meta, url);
    BlockAroundUrl(meta, url');
    var suf := UrlSuffix(meta);
    assert suf[0] == '"';
    ReplaceSplicesExpanded(html, HeadTag, UrlPrefix(meta), url, suf, MetaBlock(meta, url), MetaBlock(meta, url'));
  }

  /** Both versions agree on every request whose URL has no `$`. */
  lemma AsWrittenAgreesWithoutDollar(req: Request, origin: Response)
    requires '$' !in req.url
    ensures OnRequestAsWritten(req, origin) == OnRequest(req, origin)
  {
    if IsHtml(ContentType(origin.headers)) && ConstructorAccepts(origin.status) && Includes(origin.body, HeadTag) {
      var i := IndexOf(origin.body, HeadTag).value;
      SubstituteNoDollar(req.url, HeadTag, origin.body[..i], origin.body[i + |HeadTag|..]);
      AsWrittenExpandsUrl(req, origin);
    }
  }

  /** The URL is the only part of the output that depends on it: a longer URL, a longer body. */
  lemma BodyLengthTracksUrl(pathname: string, u1: string, u2: string, origin: Response)
    requires IsHtml(ContentType(origin.headers)) && ConstructorAccepts(origin.status) && Includes(origin.body, HeadTag)
    ensures |OnRequest(Request(u1, pathname), origin).value.body| - |u1|
         == |OnRequest(Request(u2, pathname), origin).value.body| - |u2|
  {
    var meta := MetaFor(pathname);
    var i := IndexOf(origin.body, HeadTag).value;
    BlockAroundUrl(meta, u1);
    BlockAroundUrl(meta, u2);
    InsertAfterFirstAt(origin.body, HeadTag, MetaBlock(meta, u1), i);
    InsertAfterFirstAt(origin.body, HeadTag, MetaBlock(meta, u2), i);
  }

  /**
   * A request for `https://alejotamayo.com/?ref=$$` (the URL parser leaves `$` as it is)
   * is advertised as `https://alejotamayo.com/?ref=$`: the output is the one the intended
   * middleware gives for the other URL, and it differs from the intended output.
   */
  lemma DollarUrlMisreported()
    ensures var origin := Response(ExampleHtml, 200, "OK", map["content-type" := "text/html"]);
      var req := Request(ExampleSite + "/?ref=$$", "/");
      && OnRequestAsWritten(req, origin) == OnRequest(Request(ExampleSite + "/?ref=$", "/"), origin)
      && OnRequestAsWritten(req, origin) != OnRequest(req, origin)
  {
    var origin := Response(ExampleHtml, 200, "OK", map["content-type" := "text/html"]);
    var url, url' := ExampleSite + "/?ref=$$", ExampleSite + "/?ref=$";
    var req := Request(url, "/");
    ExampleIsHtml(origin.headers);
    ExampleHasHead();
    var i := IndexOf(ExampleHtml, HeadTag).value;
    ExampleExpansion(ExampleHtml[..i], ExampleHtml[i + |HeadTag|..]);
    AsWrittenExpandsUrl(req, origin);
    BodyLengthTracksUrl("/", url, url', origin);
  }

  const ExampleSite: string := "https://alejotamayo.com"
  const ExampleHtml: string := "<html><head></head></html>"

  lemma ExampleIsHtml(headers: Headers)
    requires headers == map["content-type" := "text/html"]
    ensures IsHtml(ContentType(headers))
  {
    assert OccursAt("text/html", "text/html", 0);
  }

  lemma ExampleHasHead()
    ensures Includes(ExampleHtml, HeadTag)
  {
    assert ExampleHtml == "<html>" + HeadTag + "</head></html>";
    assert OccursAt(ExampleHtml, HeadTag, 6);
  }

  /** `$$` in the URL expands to a single `$`. */
  lemma ExampleExpansion(before: string, after: string)
    ensures Substitute(ExampleSite + "/?ref=$$", HeadTag, before, after) == ExampleSite + "/?ref=$"
  {
    var plain := ExampleSite + "/?ref=";
    assert '$' !in ExampleSite && '$' !in "/?ref=";
    assert ExampleSite + "/?ref=$$" == plain + "$$";
    SubstituteLiteralPrefix(plain, "$$", HeadTag, before, after);
    assert Substitute("$$", HeadTag, before, after) == "$" + Substitute([], HeadTag, before, after);
  }
}
