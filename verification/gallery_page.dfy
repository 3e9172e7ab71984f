/**
  The index page of one gallery (`galleryHTML`): its title, then one
  150x150 thumbnail per photo, in photo order, each linking to the photo's
  page.
 */
module GalleryPage {
  import opened Paths
  import opened Records
  import opened Html

  /** The thumbnail of photo `i`: its small rendition, linking to its page. */
  function Thumbnail(galleryName: string, i: nat): string {
    "<span>" +
    "<a href=\"" + PhotoSiteURL(galleryName, i) + "\">" +
    "<img width=\"150\" height=\"150\" src=\"" + ImageURL(galleryName, "small", i) + "\">" +
    "</a>" +
    "</span>"
  }

  /** The thumbnails of photos `0 .. count - 1`. */
  function Thumbnails(galleryName: string, count: nat): (t: seq<string>)
    ensures |t| == count
    ensures forall i :: 0 <= i < count ==> t[i] == Thumbnail(galleryName, i)
  {
    if count == 0 then [] else Thumbnails(galleryName, count - 1) + [Thumbnail(galleryName, count - 1)]
  }

  /** The end of the page; the heading is opened as `h4` and closed as `h3`. */
  const GalleryFooter := "<h4><a href=\"/\">David Mohr Gould</a></h3>" + "</body>" + "</html>"

  function GalleryHeading(galleryTitle: string): string {
    "</head>" + "<body>" + "<h2>" + galleryTitle + "</h2>"
  }

  /** The index page of a gallery of `count` photos. */
  function IndexPageText(galleryName: string, galleryTitle: string, count: nat, trackingId: string): string {
    Document(SiteOwner + " " + galleryTitle, trackingId,
      GalleryHeading(galleryTitle) + Concat(Thumbnails(galleryName, count)) + GalleryFooter)
  }

  /**
    `galleryHTML`: the head, the analytics snippet when the id is truthy, the
    heading, one thumbnail per entry of `photos`, and the footer. Only the
    number of photos matters.
   */
  method GalleryHTML(galleryName: string, galleryTitle: string, photos: seq<ImageSpec>, googleAnalyticsTrackingId: string)
    returns (html: string)
    ensures html == IndexPageText(galleryName, galleryTitle, |photos|, googleAnalyticsTrackingId)
  {
    html := HeadOpen(SiteOwner + " " + galleryTitle);
    if googleAnalyticsTrackingId != "" {
      html := html + AnalyticsHTML(googleAnalyticsTrackingId);
    }
    html := html + GalleryHeading(galleryTitle);
    ghost var prefix := html;
    assert prefix == HeadOpen(SiteOwner + " " + galleryTitle) + HeadExtras(googleAnalyticsTrackingId) + GalleryHeading(galleryTitle);
    for i := 0 to |photos|
      invariant html == prefix + Concat(Thumbnails(galleryName, i))
    {
      var thumbs := Concat(Thumbnails(galleryName, i));
      html := html + Thumbnail(galleryName, i);
      assert Thumbnails(galleryName, i + 1)[..i] == Thumbnails(galleryName, i);
      assert Concat(Thumbnails(galleryName, i + 1)) == thumbs + Thumbnail(galleryName, i);
      AppendAssoc(prefix, thumbs, Thumbnail(galleryName, i));
    }
    var thumbs := Concat(Thumbnails(galleryName, |photos|));
    html := html + GalleryFooter;
    AppendAssoc(prefix, thumbs, GalleryFooter);
    AppendAssoc(GalleryHeading(galleryTitle), thumbs, GalleryFooter);
    AppendAssoc(HeadOpen(SiteOwner + " " + galleryTitle) + HeadExtras(googleAnalyticsTrackingId),
      GalleryHeading(galleryTitle), thumbs + GalleryFooter);
  }

  /**
    Every thumbnail reaches files the build writes: its link leads to the
    photo's page and its image is the photo's small rendition.
   */
  lemma ThumbnailLinksResolve(galleryName: string, i: nat)
    ensures Resolve([galleryName], PhotoSiteURL(galleryName, i)) == SitePath(PhotoPageFile(galleryName, i))
    ensures ImageURL(galleryName, "small", i) == SitePath(RenditionFile(galleryName, Small, i))
  {
    PhotoSiteURLReachesPhotoPage(galleryName, i);
    ImageURLIsRenditionFile(galleryName, Small, i);
  }

  /**
    The thumbnails appear in photo order: everything up to and including
    photo `i`'s thumbnail is a prefix of the list of all of them.
   */
  lemma ThumbnailsInOrder(galleryName: string, i: nat, count: nat)
    requires i < count
    ensures Concat(Thumbnails(galleryName, i)) + Thumbnail(galleryName, i) <= Concat(Thumbnails(galleryName, count))
  {
    var t := Thumbnails(galleryName, count);
    assert t[..i] == Thumbnails(galleryName, i);
    ConcatPrefix(t, i);
  }
}
