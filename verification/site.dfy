/**
  The build loop of `makeGallery`: for every gallery of the configuration it
  writes the gallery's index page and, when the gallery is published, adds
  its cover to the front page, which is written last.
 */
module Site {
  import opened Wrappers
  import opened Numerals
  import opened Paths
  import opened Records
  import opened Html
  import opened GalleryPage
  import opened PhotoPage

  /** One entry of the configuration's `galleries` object, with its key as `name`. */
  datatype Gallery = Gallery(name: string, title: string, publish: bool, images: seq<ImageSpec>)

  /**
    The configuration. Photo pages take their tracking id from
    `googleAnalyticsTrackingId`, index pages from `tracking.googleAnalyticsTrackingId`;
    `tracking` is `None` when the configuration has no `tracking` object.
   */
  datatype Config = Config(galleries: seq<Gallery>, googleAnalyticsTrackingId: string, tracking: Option<string>)

  /** The id index pages use; without a `tracking` object no index page is built. */
  function IndexTrackingId(config: Config): string {
    match config.tracking
    case Some(id) => id
    case None => ""
  }

  /** A page written by the build: the file and its content. */
  datatype PageWrite = PageWrite(file: Output, html: string)

  /**
    The page written for a photo once its record exists. The gallery `g` is
    the configured gallery the record names, whose title and photo count the
    page shows. The page takes its tracking id from the top-level
    `googleAnalyticsTrackingId`.
   */
  function PhotoPageWrite(config: Config, g: Gallery, photo: PhotoRecord): (w: PageWrite)
    requires g in config.galleries && g.name == photo.galleryName
    ensures w.file == PhotoPageFile(g.name, photo.photoIndex)
    ensures Document(PageTitle(g.title, photo.title), config.googleAnalyticsTrackingId, "") <= w.html
  {
    PageWrite(PhotoPageFile(photo.galleryName, photo.photoIndex),
      PhotoPageText(g.title, photo, |g.images|, config.googleAnalyticsTrackingId))
  }

  /**
    The two ids are independent: a photo page does not depend on the
    `tracking` object, and the id index pages use does not depend on the
    top-level id.
   */
  lemma TrackingIdsIndependent(config: Config, g: Gallery, photo: PhotoRecord, tracking: Option<string>, topLevel: string)
    requires g in config.galleries && g.name == photo.galleryName
    ensures PhotoPageWrite(config.(tracking := tracking), g, photo) == PhotoPageWrite(config, g, photo)
    ensures IndexTrackingId(config.(googleAnalyticsTrackingId := topLevel)) == IndexTrackingId(config)
  {
  }

  /**
    The page written for a photo is the one its gallery's index page and its
    neighbours' pages link to: thumbnail `photoIndex` leads to it, and so do
    the "next" link of the photo before it and the "previous" link of the
    photo after it.
   */
  lemma PhotoPageWriteReached(config: Config, g: Gallery, photo: PhotoRecord)
    requires g in config.galleries && g.name == photo.galleryName
    ensures var n, count, f := photo.photoIndex, |g.images|, SitePath(PhotoPageWrite(config, g, photo).file);
      && Resolve([g.name], PhotoSiteURL(g.name, n)) == f
      && (n < count ==> Thumbnails(g.name, count)[n] == Thumbnail(g.name, n))
      && (0 < n < count ==> NextTarget(n - 1, count) == Some(n) && Resolve([g.name], IntText(n) + ".html") == f)
      && (n + 1 < count ==> PrevTarget(n + 1) == Some(n) && Resolve([g.name], IntText(n) + ".html") == f)
  {
    var n := photo.photoIndex;
    ThumbnailLinksResolve(g.name, n);
    if 0 < n {
      NavigationLinksResolve(g.name, n - 1, |g.images|);
    }
    NavigationLinksResolve(g.name, n + 1, |g.images|);
  }

  /** The front page up to its first cover; it never carries analytics. */
  const FrontHead := HeadOpen(SiteOwner) + "</head>" + "<body>" + "<h2>David Mohr Gould</h2>"

  const FrontTail := "</body>" + FooterHTML + "</html>"

  /**
    A gallery's cover on the front page: the medium rendition of its last
    photo, after a link to the gallery that is never closed.
   */
  function Cover(g: Gallery): string {
    "<div>" +
    "<a href=\"/" + g.name + "/\"> " +
    "<img src=\"" + ImageURL(g.name, "medium", |g.images| - 1) + "\">" +
    "</div>"
  }

  /** The published galleries, in configuration order. */
  function Published(gs: seq<Gallery>): seq<Gallery> {
    if gs == [] then []
    else
      var g := gs[|gs| - 1];
      Published(gs[..|gs| - 1]) + (if g.publish then [g] else [])
  }

  function Covers(gs: seq<Gallery>): (c: seq<string>)
    ensures |c| == |gs|
    ensures forall i :: 0 <= i < |gs| ==> c[i] == Cover(gs[i])
  {
    if gs == [] then [] else Covers(gs[..|gs| - 1]) + [Cover(gs[|gs| - 1])]
  }

  lemma CoversAppend(ps: seq<Gallery>, g: Gallery)
    ensures Concat(Covers(ps + [g])) == Concat(Covers(ps)) + Cover(g)
  {
    assert Covers(ps + [g]) == Covers(ps) + [Cover(g)];
    ConcatAppend(Covers(ps), [Cover(g)]);
    assert Concat([Cover(g)]) == Cover(g) by {
      assert [Cover(g)][..0] == [];
    }
  }

  lemma FrontStep(gs: seq<Gallery>, i: nat)
    requires i < |gs|
    ensures Concat(Covers(Published(gs[..i + 1]))) ==
      if gs[i].publish then Concat(Covers(Published(gs[..i]))) + Cover(gs[i]) else Concat(Covers(Published(gs[..i])))
  {
    assert gs[..i + 1][..i] == gs[..i];
    var ps := Published(gs[..i]);
    if gs[i].publish {
      assert Published(gs[..i + 1]) == ps + [gs[i]];
      CoversAppend(ps, gs[i]);
    } else {
      assert Published(gs[..i + 1]) == ps + [];
      assert ps + [] == ps;
    }
  }

  /** The front page: one cover per published gallery. */
  function FrontPage(gs: seq<Gallery>): string {
    FrontHead + Concat(Covers(Published(gs))) + FrontTail
  }

  /** The index pages, one per gallery, in configuration order. */
  function IndexWrites(gs: seq<Gallery>, trackingId: string): (w: seq<PageWrite>)
    ensures |w| == |gs|
    ensures forall i :: 0 <= i < |gs| ==>
      w[i] == PageWrite(GalleryIndexFile(gs[i].name), IndexPageText(gs[i].name, gs[i].title, |gs[i].images|, trackingId))
  {
    if gs == [] then []
    else
      var g := gs[|gs| - 1];
      IndexWrites(gs[..|gs| - 1], trackingId) +
        [PageWrite(GalleryIndexFile(g.name), IndexPageText(g.name, g.title, |g.images|, trackingId))]
  }

  lemma IndexWritesStep(gs: seq<Gallery>, i: nat, trackingId: string)
    requires i < |gs|
    ensures IndexWrites(gs[..i + 1], trackingId) ==
      IndexWrites(gs[..i], trackingId) + [PageWrite(GalleryIndexFile(gs[i].name), IndexPageText(gs[i].name, gs[i].title, |gs[i].images|, trackingId))]
  {
    assert gs[..i + 1][..i] == gs[..i];
  }

  /**
    The pages `makeGallery` writes synchronously: every gallery's index, then
    the front page. Reading `tracking.googleAnalyticsTrackingId` without a
    `tracking` object throws at the first gallery, and nothing is written.
   */
  method MakeGallery(config: Config) returns (writes: Option<seq<PageWrite>>)
    ensures writes.None? <==> config.tracking.None? && |config.galleries| > 0
    ensures writes.Some? ==>
      writes.value == IndexWrites(config.galleries, IndexTrackingId(config)) + [PageWrite(FrontPageFile, FrontPage(config.galleries))]
  {
    var gs := config.galleries;
    var frontHTML := FrontHead;
    var indexes: seq<PageWrite> := [];
    for i := 0 to |gs|
      invariant i > 0 ==> config.tracking.Some?
      invariant indexes == IndexWrites(gs[..i], IndexTrackingId(config))
      invariant frontHTML == FrontHead + Concat(Covers(Published(gs[..i])))
    {
      var galleryName := gs[i].name;
      if config.tracking.None? {
        return None;
      }
      var html := GalleryHTML(galleryName, gs[i].title, gs[i].images, config.tracking.value);
      indexes := indexes + [PageWrite(GalleryIndexFile(galleryName), html)];
      IndexWritesStep(gs, i, IndexTrackingId(config));
      FrontStep(gs, i);
      if gs[i].publish {
        AppendAssoc(FrontHead, Concat(Covers(Published(gs[..i]))), Cover(gs[i]));
        frontHTML := frontHTML + Cover(gs[i]);
      }
    }
    assert gs[..|gs|] == gs;
    frontHTML := frontHTML + FrontTail;
    writes := Some(indexes + [PageWrite(FrontPageFile, frontHTML)]);
  }

  /** A gallery is on the front page exactly when it is in the configuration and published. */
  lemma {:induction false} PublishedMembership(gs: seq<Gallery>, g: Gallery)
    ensures g in Published(gs) <==> g in gs && g.publish
  {
    if gs != [] {
      var front := gs[..|gs| - 1];
      PublishedMembership(front, g);
      assert gs == front + [gs[|gs| - 1]];
    }
  }

  /** Covers keep configuration order: the published galleries of a split configuration are split alike. */
  lemma {:induction false} PublishedAppend(a: seq<Gallery>, b: seq<Gallery>)
    ensures Published(a + b) == Published(a) + Published(b)
  {
    if b == [] {
      assert a + b == a;
    } else {
      var c := a + b;
      assert c[..|c| - 1] == a + b[..|b| - 1] && c[|c| - 1] == b[|b| - 1];
      PublishedAppend(a, b[..|b| - 1]);
    }
  }

  /** The cover of a non-empty gallery is the medium rendition of its last photo, which the build writes. */
  lemma CoverShowsLastPhoto(g: Gallery)
    requires |g.images| > 0
    ensures ImageURL(g.name, "medium", |g.images| - 1) == SitePath(RenditionFile(g.name, Medium, |g.images| - 1))
  {
    ImageURLIsRenditionFile(g.name, Medium, |g.images| - 1);
  }

  /** The cover of a published gallery without photos points at `-1.jpg`, a file the build never writes. */
  lemma EmptyCoverIsBroken(g: Gallery, o: Output)
    requires |g.images| == 0 && Segment(g.name) && ValidOutput(o)
    ensures ImageURL(g.name, "medium", |g.images| - 1) != SitePath(o)
  {
    assert Segment("medium") by {
      assert forall i :: 0 <= i < 6 ==> "medium"[i] != '/';
    }
    NegativeImageURLIsNoOutput(g.name, "medium", -1, o);
  }

  /**
    No two pages of a build share a file: with gallery names that are plain
    segments (object keys are distinct), the index pages and the front page
    go to distinct paths below any target directory.
   */
  lemma PageWritesDisjoint(root: seq<string>, gs: seq<Gallery>, trackingId: string, i: nat, j: nat)
    requires AllSegments(root)
    requires forall k :: 0 <= k < |gs| ==> Segment(gs[k].name)
    requires forall k, l :: 0 <= k < l < |gs| ==> gs[k].name != gs[l].name
    requires i < j <= |gs|
    ensures var w := IndexWrites(gs, trackingId) + [PageWrite(FrontPageFile, FrontPage(gs))];
      OutputPath(root, w[i].file) != OutputPath(root, w[j].file)
  {
    var w := IndexWrites(gs, trackingId) + [PageWrite(FrontPageFile, FrontPage(gs))];
    var o1, o2 := w[i].file, w[j].file;
    assert o1 == GalleryIndexFile(gs[i].name);
    assert j < |gs| ==> o2 == GalleryIndexFile(gs[j].name);
    assert j == |gs| ==> o2 == FrontPageFile;
    if OutputPath(root, o1) == OutputPath(root, o2) {
      OutputPathInjective(root, o1, o2);
    }
  }
}
