/**
  The page of one photo (`photoHTML`): the gallery's title linking back to
  its index, previous/next navigation, the large rendition framed as a link
  to the original, and the caption.
 */
module PhotoPage {
  import opened Wrappers
  import opened Numerals
  import opened Paths
  import opened Formatters
  import opened Records
  import opened Html

  /** The photo a "previous" link leads to, if there is one. */
  function PrevTarget(n: nat): Option<int> {
    if n > 0 then Some(n - 1) else None
  }

  /** The photo a "next" link leads to, if there is one. */
  function NextTarget(n: nat, length: nat): Option<int> {
    if n < length - 1 then Some(n + 1) else None
  }

  function NavLink(text: string, target: int): string {
    "<a href=\"" + IntText(target) + ".html\">" + text + "</a>"
  }

  function Disabled(text: string): string {
    "<span class=\"disabled\">" + text + "</span>"
  }

  /** A navigation entry: a link to the target page, or a disabled text. */
  function NavItem(text: string, target: Option<int>): string {
    match target
    case Some(k) => NavLink(text, k)
    case None => Disabled(text)
  }

  lemma LinkIsNotDisabled(text: string, k: int, text': string)
    ensures NavLink(text, k) != Disabled(text')
  {
    assert NavLink(text, k)[1] == 'a';
    assert Disabled(text')[1] == 's';
  }

  function PageTitle(galleryTitle: string, photoTitle: string): string {
    SiteOwner + " " + galleryTitle + " - " + photoTitle
  }

  function BackLink(galleryName: string, galleryTitle: string): string {
    "<h2><a href=\"/" + galleryName + "/\">&#9664; " + galleryTitle + "</a></h2>"
  }

  function Caption(photo: PhotoRecord): string {
    photo.takenAt + ", " + photo.shutterSpeed + " at f/" + photo.fNumber
  }

  function Img(width: nat, height: nat, src: string): string {
    "<img width=\"" + Decimal(width) + "\" height=\"" + Decimal(height) + "\" " + "src=\"" + src + "\">"
  }

  function Figure(photo: PhotoRecord): string {
    var n := photo.photoIndex;
    "<figure>" +
    "<a href=\"original/" + Decimal(n) + ".jpg\">" +
    Img(photo.width, photo.height, ImageURL(photo.galleryName, "large", n)) +
    "</a>" +
    "<figurecaption>" + "<h3>" + photo.title + "</h3>" + "<span>" + Caption(photo) + "</span>" + "</figurecaption>" +
    "</figure>"
  }

  /** The whole page of `photo` in a gallery of `length` photos. */
  function PhotoPageText(galleryTitle: string, photo: PhotoRecord, length: nat, trackingId: string): string {
    Document(PageTitle(galleryTitle, photo.title), trackingId,
      "</head>" + "<body>" +
      BackLink(photo.galleryName, galleryTitle) +
      "<nav>" + NavItem("previous", PrevTarget(photo.photoIndex)) +
      " / " + NavItem("next", NextTarget(photo.photoIndex, length)) + "</nav>" +
      Figure(photo) +
      "</body>" + "</html>")
  }

  /**
    `photoHTML`, building the page piece by piece. Its first parameter is
    never read: the page takes the gallery from the record, so the stale
    gallery name the caller's callback passes has no effect.
   */
  method PhotoHTML(galleryName: string, galleryTitle: string, photoData: PhotoRecord, length: nat, googleAnalyticsTrackingId: string)
    returns (html: string)
    ensures html == PhotoPageText(galleryTitle, photoData, length, googleAnalyticsTrackingId)
  {
    html := HeadOpen(PageTitle(galleryTitle, photoData.title));
    if googleAnalyticsTrackingId != "" {
      html := html + AnalyticsHTML(googleAnalyticsTrackingId);
    }
    assert html == HeadOpen(PageTitle(galleryTitle, photoData.title)) + HeadExtras(googleAnalyticsTrackingId);
    var n := photoData.photoIndex;
    var previous := Disabled("previous");
    if n > 0 {
      previous := NavLink("previous", n - 1);
    }
    assert previous == NavItem("previous", PrevTarget(n));
    var next := Disabled("next");
    if n < length - 1 {
      next := NavLink("next", n + 1);
    }
    assert next == NavItem("next", NextTarget(n, length));
    html := html + ("</head>" + "<body>" + BackLink(photoData.galleryName, galleryTitle) +
      "<nav>" + previous + " / " + next + "</nav>" + Figure(photoData) + "</body>" + "</html>");
  }

  /**
    "previous" links to `n - 1` exactly when `n > 0` and is disabled
    otherwise; "next" links to `n + 1` exactly when `n < length - 1` and is
    disabled otherwise; a gallery of one photo has both disabled.
   */
  lemma NavigationBoundaries(n: nat, length: nat)
    ensures NavItem("previous", PrevTarget(n)) == NavLink("previous", n - 1) <==> n > 0
    ensures NavItem("previous", PrevTarget(n)) == Disabled("previous") <==> n == 0
    ensures NavItem("next", NextTarget(n, length)) == NavLink("next", n + 1) <==> n < length - 1
    ensures NavItem("next", NextTarget(n, length)) == Disabled("next") <==> n >= length - 1
    ensures length == 1 ==>
      NavItem("previous", PrevTarget(0)) == Disabled("previous") && NavItem("next", NextTarget(0, length)) == Disabled("next")
  {
    LinkIsNotDisabled("previous", n - 1, "previous");
    LinkIsNotDisabled("next", n + 1, "next");
  }

  /**
    Across the photos of a gallery the links form one chain: "next" from a
    photo leads to a photo of the gallery whose "previous" leads back, and
    the other way round.
   */
  lemma NavigationChain(n: nat, length: nat)
    requires n < length
    ensures NextTarget(n, length).Some? ==>
      var k := NextTarget(n, length).value; 0 <= k < length && PrevTarget(k) == Some(n)
    ensures PrevTarget(n).Some? ==>
      var k := PrevTarget(n).value; 0 <= k < length && NextTarget(k, length) == Some(n)
  {
  }

  /**
    The image on photo `n`'s page is the file written for its large rendition,
    and the image links to the file written for its original.
   */
  lemma FigureLinksResolve(galleryName: string, n: nat)
    ensures ImageURL(galleryName, "large", n) == SitePath(RenditionFile(galleryName, Large, n))
    ensures Resolve([galleryName], "original/" + Decimal(n) + ".jpg") == SitePath(RenditionFile(galleryName, Original, n))
  {
    assert ImageURL(galleryName, "large", n) == SitePath(RenditionFile(galleryName, Large, n)) by {
      ImageURLIsRenditionFile(galleryName, Large, n);
    }
    assert Resolve([galleryName], "original/" + Decimal(n) + ".jpg") == "/" + galleryName + "/" + "original/" + Decimal(n) + ".jpg" by {
      assert [galleryName][1..] == [];
    }
    assert SitePath(RenditionFile(galleryName, Original, n)) == "/" + galleryName + "/" + "original" + "/" + Decimal(n) + ".jpg" by {
      JoinPathOfThree(galleryName, "original", Decimal(n) + ".jpg");
    }
    assert "original" + "/" == "original/";
    AppendAssoc("/" + galleryName + "/", "original", "/");
  }

  /** An enabled navigation link on photo `n`'s page reaches the neighbouring photo's page. */
  lemma NavigationLinksResolve(galleryName: string, n: nat, length: nat)
    ensures PrevTarget(n).Some? ==>
      Resolve([galleryName], IntText(n - 1) + ".html") == SitePath(PhotoPageFile(galleryName, n - 1))
    ensures NextTarget(n, length).Some? ==>
      Resolve([galleryName], IntText(n + 1) + ".html") == SitePath(PhotoPageFile(galleryName, n + 1))
  {
    if n > 0 {
      PhotoSiteURLReachesPhotoPage(galleryName, n - 1);
    }
    PhotoSiteURLReachesPhotoPage(galleryName, n + 1);
  }

  /**
    The page of a photo whose sub-tasks all succeeded shows the large
    rendition at the size it was written, and a caption made of the
    formatted capture date, the formatted exposure and the raw aperture.
   */
  lemma PhotoPageOfRecord(
    galleryName: string, filename: string, photo: ImageSpec, n: nat,
    probe: Size, exif: Exif, large: Size)
    requires ValidExif(exif)
    ensures var r := FetchPhotoData(galleryName, filename, photo, n, Some(probe), Some(exif), Some(large), true, true);
      && r.Some?
      && Figure(r.value) ==
        "<figure>" +
        "<a href=\"original/" + Decimal(n) + ".jpg\">" +
        Img(large.width, large.height, SitePath(RenditionFile(galleryName, Large, n))) +
        "</a>" +
        "<figurecaption>" + "<h3>" + photo.title + "</h3>" + "<span>" +
        (ShotDate(exif.dateTimeOriginal) + ", " + ShutterSpeed(exif.exposureTime) + " at f/" + exif.fNumber) +
        "</span>" + "</figurecaption>" +
        "</figure>"
  {
    var r := FetchPhotoData(galleryName, filename, photo, n, Some(probe), Some(exif), Some(large), true, true);
    var p := r.value;
    ImageURLIsRenditionFile(galleryName, Large, n);
    assert Caption(p) == ShotDate(exif.dateTimeOriginal) + ", " + ShutterSpeed(exif.exposureTime) + " at f/" + exif.fNumber;
    assert ImageURL(p.galleryName, "large", p.photoIndex) == SitePath(RenditionFile(galleryName, Large, n));
  }
}
