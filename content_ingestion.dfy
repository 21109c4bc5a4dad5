/** The ingestion service: a URL goes to the video adapter when its host is
    YouTube's and to the web adapter otherwise; PDFs, videos and text go to
    their adapters unchanged. Parsing a URL is outside the model: its
    hostname (None when the URL does not parse) is an input, and so is the
    web adapter's answer. */
module ContentIngestion {
  import opened Wrappers
  import opened Strings
  import opened Models
  import opened ParagraphSplit
  import PdfAdapter
  import VideoAdapter
  import TextAdapter

  /** The hostnames, in lower case, that count as YouTube. */
  const YouTubeHosts: set<string> := {"youtube.com", "www.youtube.com", "youtu.be", "www.youtu.be"}

  /** `isYouTubeUrl`: a URL that does not parse is not YouTube's. */
  function IsYouTubeUrl(hostname: Option<string>): (b: bool)
    ensures hostname.None? ==> !b
  {
    hostname.Some? && Lower(hostname.value) in YouTubeHosts
  }

  /** Host matching ignores case. */
  lemma YouTubeIgnoresCase(h: string)
    ensures IsYouTubeUrl(Some(h)) <==> IsYouTubeUrl(Some(Lower(h)))
    ensures IsYouTubeUrl(Some("WWW.YouTube.COM")) && IsYouTubeUrl(Some("YOUTU.BE"))
  {
    LowerIdempotent(h);
    assert Lower("WWW.YouTube.COM") == "www.youtube.com";
    assert Lower("YOUTU.BE") == "youtu.be";
  }

  /** Host matching is exact: a subdomain of `youtube.com` counts only
      when it is `www`. */
  lemma YouTubeSubdomains(p: string)
    ensures IsYouTubeUrl(Some(p + ".youtube.com")) <==> Lower(p) == "www"
  {
    var suffix := ".youtube.com";
    LowerConcat(p, suffix);
    assert Lower(suffix) == suffix;
    SubdomainHost(Lower(p));
  }

  /** A name followed by `.youtube.com` is one of the hosts only for `www`. */
  lemma SubdomainHost(q: string)
    ensures q + ".youtube.com" in YouTubeHosts <==> q == "www"
  {
    var l := q + ".youtube.com";
    if l == "www.youtube.com" {
      assert q == l[..3];
    }
    if q == "www" {
      assert l == "www.youtube.com";
    }
    assert |l| >= 12 && l[|l| - 1] == 'm';
  }

  /** So `m.youtube.com` and `music.youtube.com` go to the web adapter. */
  lemma OtherSubdomainsAreWeb()
    ensures !IsYouTubeUrl(Some("m.youtube.com")) && !IsYouTubeUrl(Some("music.youtube.com"))
  {
    YouTubeSubdomains("m");
    assert "m" + ".youtube.com" == "m.youtube.com";
    assert Lower("m") == "m";
    YouTubeSubdomains("music");
    assert "music" + ".youtube.com" == "music.youtube.com";
    assert Lower("music") == "music";
  }

  /** `processUrl`: a YouTube host is handed to the video adapter (whose
      inputs follow), any other URL to the web adapter, whose answer is
      `web`. */
  method ProcessUrl(url: string, hostname: Option<string>, web: Result<ContentPackage, string>,
                    validUrl: bool, info: Result<VideoAdapter.VideoDetails, string>,
                    captionXml: Option<string>, metadata: Metadata, id: string)
    returns (r: Result<ContentPackage, string>)
    ensures !IsYouTubeUrl(hostname) ==> r == web
    ensures IsYouTubeUrl(hostname) ==> (r.Success? <==> validUrl && info.Success?)
    ensures IsYouTubeUrl(hostname) && !validUrl ==>
      r == Failure("Failed to process video: Invalid YouTube URL: " + url)
    ensures IsYouTubeUrl(hostname) && info.Failure? && validUrl ==>
      r == Failure("Failed to process video: " + info.error)
    ensures IsYouTubeUrl(hostname) && r.Success? ==>
      var p := r.value;
      p.id == id && p.sourceType == Video && p.sourceUrl == Some(url) && p.citations == Some([url])
      && p.metadata == metadata && |p.content| >= 2 && p.content[0] == "Title: " + info.value.title
      && p.content == VideoAdapter.WithPlaceholders(["Title: " + info.value.title]
                        + VideoAdapter.DescriptionBlocks(info.value.description)
                        + VideoAdapter.CaptionSentences(captionXml), info.value)
  {
    if IsYouTubeUrl(hostname) {
      r := ProcessVideo(url, validUrl, info, captionXml, metadata, id);
      return;
    }
    r := web;
  }

  /** `processPdf`: the PDF adapter's package, unchanged. */
  function ProcessPdf(file: PdfAdapter.PdfFile, parsed: Result<PdfAdapter.PdfData, string>, id: string)
    : (r: Result<ContentPackage, string>)
    ensures parsed.Failure? ==> r == Failure("Failed to process PDF: " + parsed.error)
    ensures r.Success? <==> parsed.Success?
    ensures r.Success? ==>
      var p := r.value;
      p.id == id && p.sourceType == Pdf && p.citations == Some([file.name]) && p.sourceUrl.None?
      && p.content == Paragraphs(parsed.value.text)
      && p.metadata == PdfAdapter.ExtractMetadata(parsed.value, file)
  {
    PdfAdapter.ProcessPdf(file, parsed, id)
  }

  /** `processVideo`: the video adapter's package, unchanged. */
  method ProcessVideo(url: string, validUrl: bool, info: Result<VideoAdapter.VideoDetails, string>,
                      captionXml: Option<string>, metadata: Metadata, id: string)
    returns (r: Result<ContentPackage, string>)
    ensures r.Success? <==> validUrl && info.Success?
    ensures !validUrl ==> r == Failure("Failed to process video: Invalid YouTube URL: " + url)
    ensures validUrl && info.Failure? ==> r == Failure("Failed to process video: " + info.error)
    ensures r.Success? ==>
      var p := r.value;
      p.id == id && p.sourceType == Video && p.sourceUrl == Some(url) && p.citations == Some([url])
      && p.metadata == metadata && |p.content| >= 2 && p.content[0] == "Title: " + info.value.title
      && p.content == VideoAdapter.WithPlaceholders(["Title: " + info.value.title]
                        + VideoAdapter.DescriptionBlocks(info.value.description)
                        + VideoAdapter.CaptionSentences(captionXml), info.value)
  {
    r := VideoAdapter.ProcessVideo(url, validUrl, info, captionXml, metadata, id);
  }

  /** `processText`: the text adapter's package, unchanged. */
  method ProcessText(text: string, id: string, timestamp: string) returns (pkg: ContentPackage)
    ensures pkg.id == id && pkg.sourceType == Text && pkg.citations == Some([]) && pkg.sourceUrl.None?
    ensures pkg.content != []
    ensures |Paragraphs(text)| > 1 ==> pkg.content == Paragraphs(text)
    ensures |Paragraphs(text)| <= 1 && TextAdapter.Sentences(CleanText(text)) != [] ==>
      pkg.content == TextAdapter.GroupRef(TextAdapter.Sentences(CleanText(text)))
    ensures |Paragraphs(text)| <= 1 && TextAdapter.Sentences(CleanText(text)) == [] ==>
      pkg.content == [CleanText(text)]
    ensures |Paragraphs(text)| <= 1 ==> Join(NonEmpty(pkg.content), " ") == CleanText(text)
    ensures exists k: nat ::
      (k < |TextAdapter.Languages|
       && pkg.metadata == TextAdapter.ExtractMetadata(text, TextAdapter.Languages[k], timestamp)
       && TextAdapter.Winner(TextAdapter.Scores(TextAdapter.Sample(text)), k))
  {
    pkg := TextAdapter.ProcessText(text, id, timestamp);
  }
}
