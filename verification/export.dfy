/**
 The composite image export of `downloadQR`: the canvas layout (title band,
 QR image, watermark band), the output encoding and the saved file's name,
 and the decision whether a save happens at all. Drawing, rasterisation and
 the save service itself are outside the model; only the numbers, strings and
 the save decision they are fed are computed here.
 */
module Export {
  import opened Wrappers

  /** Padding around the QR image on every side, in pixels. */
  const Padding: int := 40
  /** Rendered edge length of the QR image, in pixels. */
  const QrSize: int := 200
  /** Height reserved at the bottom for the watermark caption. */
  const WatermarkHeight: int := 30
  /** Title band height when a title is present, and the placeholder otherwise. */
  const TitleBand: int := 60
  const NoTitleBand: int := 20
  /** Baseline offset of the title below the top padding. */
  const TitleBaselineOffset: int := 35
  /** Distance of the watermark baseline from the bottom edge. */
  const WatermarkBaselineInset: int := 10
  /** File name used when the title is empty. */
  const DefaultBaseName: string := "qr-code"

  /** The two output encodings offered by the download buttons. */
  datatype Format = Png | Jpg

  /** A point on the canvas, in pixels from the top-left corner. */
  datatype Point = Point(x: int, y: int)

  /** Where everything goes on the export canvas. `title` is the centred
      anchor of the title text, present only when a title is drawn. */
  datatype Layout = Layout(width: int, height: int, titleHeight: int,
                           qr: Point, qrSize: int,
                           title: Option<Point>, watermark: Point)

  /** What the platform does during an export: whether a 2D drawing context is
      obtained, whether the stored data URL decodes as an image, and whether the
      canvas serialises to a blob. */
  datatype Platform = Platform(hasContext: bool, imageLoads: bool, blobProduced: bool)

  /** The call handed to the save service. */
  datatype SaveCall = SaveCall(fileName: string, mimeType: string, image: string, layout: Layout)

  /** Height of the title band: the larger band when there is a title. */
  function TitleHeight(title: string): (h: int)
    ensures h == TitleBand <==> title != ""
    ensures h == NoTitleBand <==> title == ""
  {
    if title != "" then TitleBand else NoTitleBand
  }

  /** The canvas layout for a title. The canvas is the QR image with padding on
      both sides; vertically it stacks padding, the title band, the QR image,
      the watermark band and padding. The QR image lies wholly inside the
      canvas, horizontally centred, directly below the title band and above the
      watermark band; the watermark is right-aligned one padding from the right
      edge, in the bottom band; a title, if drawn, is centred above the QR. */
  function LayoutFor(title: string): (l: Layout)
    ensures l.width == 280
    ensures l.height == (if title != "" then 370 else 330)
    ensures l.titleHeight == TitleHeight(title)
    ensures l.qrSize == QrSize
    ensures 0 <= l.qr.x && l.qr.x + l.qrSize <= l.width
    ensures 0 <= l.qr.y && l.qr.y + l.qrSize <= l.height
    ensures l.qr.x == l.width - (l.qr.x + l.qrSize)
    ensures l.qr.y == Padding + l.titleHeight
    ensures l.qr.y + l.qrSize + WatermarkHeight + Padding == l.height
    ensures l.watermark == Point(l.width - Padding, l.height - WatermarkBaselineInset)
    ensures l.qr.y + l.qrSize < l.watermark.y < l.height
    ensures l.qr.x + l.qrSize == l.watermark.x
    ensures l.title.Some? <==> title != ""
    ensures l.title.Some? ==> 2 * l.title.value.x == l.width
                              && Padding < l.title.value.y < l.qr.y
  {
    var th := TitleHeight(title);
    var w := QrSize + Padding * 2;
    var h := QrSize + th + WatermarkHeight + Padding * 2;
    Layout(w, h, th,
           Point(Padding, Padding + th), QrSize,
           if title != "" then Some(Point(w / 2, Padding + TitleBaselineOffset)) else None,
           Point(w - Padding, h - WatermarkBaselineInset))
  }

  /** File extension of a format, as it appears in the saved name. */
  function Extension(f: Format): (e: string)
    ensures '.' !in e && |e| == 3
  {
    match f
    case Png => "png"
    case Jpg => "jpg"
  }

  /** MIME type passed to the canvas serialiser: JPEG exactly for `Jpg`. */
  function MimeType(f: Format): (m: string)
    ensures m == "image/jpeg" <==> f == Jpg
    ensures m == "image/png" <==> f == Png
  {
    "image/" + (if f == Jpg then "jpeg" else "png")
  }

  /** The name part of the saved file: the title, or the default when empty. */
  function BaseName(title: string): (b: string)
    ensures b != ""
    ensures title != "" ==> b == title
    ensures title == "" ==> b == DefaultBaseName
  {
    if title != "" then title else DefaultBaseName
  }

  /** Name of the saved file: base name, a dot, and the format's extension. */
  function FileName(title: string, f: Format): (n: string)
    ensures |n| == |BaseName(title)| + 4
    ensures n[..|BaseName(title)|] == BaseName(title)
    ensures n[|BaseName(title)|] == '.'
    ensures n[|BaseName(title)| + 1..] == Extension(f)
  {
    BaseName(title) + "." + Extension(f)
  }

  /** Position of the last '.' in `s`, if any. */
  function LastDot(s: string): (r: Option<nat>)
    ensures r.None? ==> forall j :: 0 <= j < |s| ==> s[j] != '.'
    ensures r.Some? ==> r.value < |s| && s[r.value] == '.'
                        && forall j :: r.value < j < |s| ==> s[j] != '.'
  {
    if s == [] then None
    else if s[|s| - 1] == '.' then Some(|s| - 1)
    else LastDot(s[..|s| - 1])
  }

  /** Split a file name at its last dot into base name and extension. */
  function SplitExtension(name: string): (r: Option<(string, string)>)
    ensures r.Some? ==> r.value.0 + "." + r.value.1 == name && '.' !in r.value.1
    ensures r.None? <==> '.' !in name
  {
    match LastDot(name)
    case None => None
    case Some(i) =>
      assert name == name[..i] + "." + name[i + 1..];
      Some((name[..i], name[i + 1..]))
  }

  /** The saved name splits back into the base name and the format's extension,
      even when the title itself contains dots. */
  lemma FileNameSplits(title: string, f: Format)
    ensures SplitExtension(FileName(title, f)) == Some((BaseName(title), Extension(f)))
  {
    var n := FileName(title, f);
    var b := |BaseName(title)|;
    assert n[b] == '.';
    assert forall j :: b < j < |n| ==> n[j] == Extension(f)[j - b - 1];
    assert LastDot(n) == Some(b);
  }

  /** The export: nothing happens without a generated image; otherwise the save
      service receives the current title's file name, the format's MIME type,
      the stored image and the layout, provided the platform steps succeed. */
  function Download(dataURL: string, title: string, f: Format, p: Platform): (r: Option<SaveCall>)
    ensures r.Some? <==> dataURL != "" && p.hasContext && p.imageLoads && p.blobProduced
    ensures r.Some? ==> r.value == SaveCall(FileName(title, f), MimeType(f), dataURL, LayoutFor(title))
  {
    if dataURL == "" then None
    else if !p.hasContext then None
    else
      var layout := LayoutFor(title);
      if !p.imageLoads then None
      else if !p.blobProduced then None
      else Some(SaveCall(FileName(title, f), MimeType(f), dataURL, layout))
  }

  /** Whatever is saved, its file extension and its MIME type agree: a `.jpg`
      name exactly when the content is JPEG, a `.png` name exactly when PNG. */
  lemma SavedNameMatchesMime(dataURL: string, title: string, f: Format, p: Platform)
    requires Download(dataURL, title, f, p).Some?
    ensures var c := Download(dataURL, title, f, p).value;
            SplitExtension(c.fileName).Some?
            && (SplitExtension(c.fileName).value.1 == "jpg" <==> c.mimeType == "image/jpeg")
            && (SplitExtension(c.fileName).value.1 == "png" <==> c.mimeType == "image/png")
  {
    FileNameSplits(title, f);
  }
}
