/**
 * The QR code panel: it draws the code for a URL, shows a spinner while the
 * image is being made and the error if that failed, and offers the image for
 * download under a name made from the recipe title. Drawing the image is a
 * browser call, so its outcome is a parameter.
 */
module QrCodeDisplayView {
  import opened Wrappers
  import opened Text
  import opened ClientTypes

  const DefaultSize: nat := 256
  const DefaultShowDownload: bool := true

  const GenerationFailed := "Failed to generate QR code"

  // ---------------------------------------------------------------------------
  // The download filename

  /** `replace(/[^a-z0-9]/gi, '-')`: every character outside `[A-Za-z0-9]` becomes one dash. */
  function DashNonAlnum(t: string): (r: string)
    ensures |r| == |t|
    ensures forall i :: 0 <= i < |t| ==> r[i] == if IsAlnum(t[i]) then t[i] else '-'
  {
    if t == [] then []
    else [if IsAlnum(t[0]) then t[0] else '-'] + DashNonAlnum(t[1..])
  }

  /** The title part of the filename: dashed, then lower-cased. */
  function Stem(t: string): string {
    Lower(DashNonAlnum(t))
  }

  /**
   * `title ? `${...}-qr.png` : 'qrcode.png'`: a non-empty title gives a name
   * seven characters longer, ending in "-qr.png"; a missing or empty one
   * gives "qrcode.png".
   */
  function DownloadFilename(title: Option<string>): (f: string)
    ensures title.Some? && title.value != "" ==> |f| == |title.value| + 7 && f[|title.value|..] == "-qr.png"
    ensures title.None? || title.value == "" ==> f == "qrcode.png"
  {
    if title.Some? && title.value != "" then Stem(title.value) + "-qr.png" else "qrcode.png"
  }

  /**
   * With a non-empty title the name is the title, position by position, with
   * ASCII letters and digits lower-cased and everything else a dash, followed
   * by "-qr.png"; so it is seven characters longer than the title.
   */
  lemma FilenameFromTitle(t: string)
    requires t != ""
    ensures var f := DownloadFilename(Some(t));
      && |f| == |t| + 7
      && f[|t|..] == "-qr.png"
      && forall i :: 0 <= i < |t| ==> f[i] == if IsAlnum(t[i]) then LowerChar(t[i]) else '-'
  {
    var f := DownloadFilename(Some(t));
    assert f == Stem(t) + "-qr.png";
    assert forall i :: 0 <= i < |t| ==> f[i] == Stem(t)[i];
  }

  /** Before the suffix, the name holds only lower-case ASCII letters, digits and dashes. */
  lemma StemCharacters(t: string)
    ensures forall i :: 0 <= i < |Stem(t)| ==> IsLowerAscii(Stem(t)[i]) || IsDigit(Stem(t)[i]) || Stem(t)[i] == '-'
  {
    var d := DashNonAlnum(t);
    assert forall i :: 0 <= i < |d| ==> IsAlnum(d[i]) || d[i] == '-';
  }

  /** A name already in that form is its own stem: deriving the name again changes nothing. */
  lemma StemIdempotent(t: string)
    ensures Stem(Stem(t)) == Stem(t)
  {
    var s := Stem(t);
    StemCharacters(t);
    assert forall i :: 0 <= i < |s| ==> Stem(s)[i] == s[i];
  }

  /** Dashes are not collapsed, and case is lost: different titles can share a filename. */
  lemma TitlesCanCollide()
    ensures DownloadFilename(Some("A b")) == DownloadFilename(Some("a-b")) == "a-b-qr.png"
  {
    var s1, s2 := Stem("A b"), Stem("a-b");
    assert |s1| == 3 && s1[0] == 'a' && s1[1] == '-' && s1[2] == 'b';
    assert |s2| == 3 && s2[0] == 'a' && s2[1] == '-' && s2[2] == 'b';
    assert s1 == "a-b" == s2;
  }

  // ---------------------------------------------------------------------------
  // The panel

  /** What `handleDownload` hands to the browser. */
  datatype Download = Download(dataUrl: string, filename: string)

  /** The four things the panel can show. */
  datatype Screen =
    | Spinner
    | ErrorPanel(message: string)
    | GenerateButton
    | Image(src: string, alt: string, size: nat, downloadButton: bool)

  /** `QR Code${title ? ` for ${title}` : ''}` */
  function AltText(title: Option<string>): (alt: string)
    ensures title.Some? && title.value != "" ==> alt == "QR Code for " + title.value
    ensures title.None? || title.value == "" ==> alt == "QR Code"
  {
    if title.Some? && title.value != "" then "QR Code for " + title.value else "QR Code"
  }

  /** The render: the spinner while loading, then a non-empty error, then the button while there is no image. */
  function View(loading: bool, error: Option<string>, dataUrl: Option<string>,
                title: Option<string>, size: nat, showDownload: bool): (s: Screen)
    ensures s == Spinner <==> loading
    ensures s.ErrorPanel? <==> !loading && error.Some? && error.value != ""
    ensures s.ErrorPanel? ==> s.message == error.value
    ensures s == GenerateButton <==> !loading && (error.None? || error.value == "") && (dataUrl.None? || dataUrl.value == "")
    ensures s.Image? ==> s == Image(dataUrl.value, AltText(title), size, showDownload) && dataUrl.value != ""
  {
    if loading then Spinner
    else if error.Some? && error.value != "" then ErrorPanel(error.value)
    else if dataUrl.None? || dataUrl.value == "" then GenerateButton
    else Image(dataUrl.value, AltText(title), size, showDownload)
  }

  class QrCodeDisplay {
    var qrImageDataUrl: Option<string>
    var loading: bool
    var error: Option<string>

    /** The first render: no image, not loading, no error. */
    constructor()
      ensures qrImageDataUrl.None? && !loading && error.None?
    {
      qrImageDataUrl, loading, error := None, false, None;
    }

    /** The synchronous start of `generateQRCode`: loading on, error cleared. */
    method StartGeneration()
      modifies this
      ensures loading && error.None? && qrImageDataUrl == old(qrImageDataUrl)
    {
      loading := true;
      error := None;
    }

    /**
     * The end of `generateQRCode`: the new image, or the error's message (a
     * fixed text when what was thrown is not an `Error`) beside the old image;
     * loading is off either way.
     */
    method FinishGeneration(outcome: Result<string, Thrown>)
      modifies this
      ensures !loading
      ensures outcome.Ok? ==> qrImageDataUrl == Some(outcome.value) && error == old(error)
      ensures outcome.Err? ==> qrImageDataUrl == old(qrImageDataUrl)
                               && error == Some(ErrorText(outcome.error, GenerationFailed))
    {
      match outcome {
        case Ok(dataUrl) => qrImageDataUrl := Some(dataUrl);
        case Err(t) => error := Some(ErrorText(t, GenerationFailed));
      }
      loading := false;
    }

    /** `generateQRCode` from its call to the end of the request, which ended with `outcome`. */
    method GenerateQrCode(outcome: Result<string, Thrown>)
      modifies this
      ensures !loading
      ensures outcome.Ok? ==> qrImageDataUrl == Some(outcome.value) && error.None?
      ensures outcome.Err? ==> qrImageDataUrl == old(qrImageDataUrl)
                               && error == Some(ErrorText(outcome.error, GenerationFailed))
    {
      StartGeneration();
      FinishGeneration(outcome);
    }

    /** The effect on `[url]`: an empty URL leaves everything as it was. */
    method UrlChanged(url: string, outcome: Result<string, Thrown>)
      modifies this
      ensures url == "" ==> qrImageDataUrl == old(qrImageDataUrl) && loading == old(loading) && error == old(error)
      ensures url != "" ==> !loading
      ensures url != "" && outcome.Ok? ==> qrImageDataUrl == Some(outcome.value) && error.None?
      ensures url != "" && outcome.Err? ==> qrImageDataUrl == old(qrImageDataUrl)
                                            && error == Some(ErrorText(outcome.error, GenerationFailed))
    {
      if url != "" {
        GenerateQrCode(outcome);
      }
    }

    /** `handleDownload`: nothing until there is an image; otherwise the image under the title's filename. */
    method HandleDownload(title: Option<string>) returns (d: Option<Download>)
      ensures d.None? <==> qrImageDataUrl.None? || qrImageDataUrl.value == ""
      ensures d.Some? ==> d.value == Download(qrImageDataUrl.value, DownloadFilename(title))
    {
      if qrImageDataUrl.Some? && qrImageDataUrl.value != "" {
        d := Some(Download(qrImageDataUrl.value, DownloadFilename(title)));
      } else {
        d := None;
      }
    }

    /** What the panel shows now. */
    function Shown(title: Option<string>, size: nat, showDownload: bool): Screen
      reads this
    {
      View(loading, error, qrImageDataUrl, title, size, showDownload)
    }
  }

  /** While an image is being made the panel shows only the spinner, whatever it showed before. */
  lemma SpinnerWhileLoading(error: Option<string>, dataUrl: Option<string>, title: Option<string>, size: nat, showDownload: bool)
    ensures View(true, error, dataUrl, title, size, showDownload) == Spinner
  {
  }

  /**
   * After a generation that produced a non-empty image the panel shows it,
   * with the download button exactly when asked for.
   */
  lemma SuccessShowsImage(dataUrl: string, title: Option<string>, size: nat, showDownload: bool)
    requires dataUrl != ""
    ensures View(false, None, Some(dataUrl), title, size, showDownload)
            == Image(dataUrl, AltText(title), size, showDownload)
  {
  }

  /** A failure with an `Error` whose message is empty shows no error: the old image, or the button. */
  lemma EmptyMessageHidesError(dataUrl: Option<string>, title: Option<string>, size: nat, showDownload: bool)
    ensures View(false, Some(ErrorText(ErrorObject(""), GenerationFailed)), dataUrl, title, size, showDownload)
            == View(false, None, dataUrl, title, size, showDownload)
  {
  }
}
