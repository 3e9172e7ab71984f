/**
  Output files and the URLs that point at them.

  `path.join` is modelled for plain path segments only (non-empty, no '/'):
  for those it puts one '/' before each segment. Every file the generator
  writes sits at `<target>/<gallery>/<kind>/<n>.jpg`, `<target>/<gallery>/<n>.html`,
  `<target>/<gallery>/index.html` or `<target>/index.html`; the site is served
  from `<target>`, so a file's URL is its path below the target directory.
 */
module Paths {
  import opened Numerals

  /** A single path segment: what a gallery name or a file name must be. */
  predicate Segment(s: string) {
    |s| > 0 && forall i :: 0 <= i < |s| ==> s[i] != '/'
  }

  predicate AllSegments(segs: seq<string>) {
    forall i :: 0 <= i < |segs| ==> Segment(segs[i])
  }

  /**
    A '/' before each segment: what `path.join('/', s1, ..., sk)` gives for
    k >= 1 plain segments (for k = 0 `path.join` gives "/", a case the
    generator never produces).
   */
  function JoinPath(segs: seq<string>): (p: string)
    ensures segs == [] <==> p == ""
    ensures segs != [] ==> p[0] == '/'
  {
    if segs == [] then "" else "/" + segs[0] + JoinPath(segs[1..])
  }

  lemma {:induction false} JoinPathAppend(a: seq<string>, b: seq<string>)
    ensures JoinPath(a + b) == JoinPath(a) + JoinPath(b)
  {
    if a == [] {
      assert a + b == b;
    } else {
      assert (a + b)[0] == a[0] && (a + b)[1..] == a[1..] + b;
      JoinPathAppend(a[1..], b);
    }
  }

  /** The characters of `s` up to its first '/'. */
  function UpToSlash(s: string): string {
    if s == [] || s[0] == '/' then [] else [s[0]] + UpToSlash(s[1..])
  }

  lemma {:induction false} UpToSlashOf(x: string, rest: string)
    requires forall i :: 0 <= i < |x| ==> x[i] != '/'
    requires rest == [] || rest[0] == '/'
    ensures UpToSlash(x + rest) == x
  {
    if x != [] {
      assert (x + rest)[0] == x[0] && (x + rest)[1..] == x[1..] + rest;
      UpToSlashOf(x[1..], rest);
    } else {
      assert x + rest == rest;
    }
  }

  /** The first segment of a joined path is the text up to the next '/'. */
  lemma FirstSegment(x: string, tail: seq<string>)
    requires Segment(x)
    ensures var p := JoinPath([x] + tail);
      UpToSlash(p[1..]) == x && p[1 + |x|..] == JoinPath(tail)
  {
    var segs := [x] + tail;
    assert segs[0] == x && segs[1..] == tail;
    var p, rest := JoinPath(segs), JoinPath(tail);
    assert p == "/" + x + rest;
    assert p[1..] == x + rest;
    UpToSlashOf(x, rest);
  }

  /** Joining plain segments loses nothing: the segments can be read back. */
  lemma {:induction false} JoinPathInjective(a: seq<string>, b: seq<string>)
    requires AllSegments(a) && AllSegments(b)
    requires JoinPath(a) == JoinPath(b)
    ensures a == b
  {
    if a != [] && b != [] {
      assert a == [a[0]] + a[1..] && b == [b[0]] + b[1..];
      FirstSegment(a[0], a[1..]);
      FirstSegment(b[0], b[1..]);
      JoinPathInjective(a[1..], b[1..]);
    }
  }

  lemma JoinPathOfTwo(a: string, b: string)
    ensures JoinPath([a, b]) == "/" + a + "/" + b
  {
    assert [a, b][1..] == [b];
    assert [b][1..] == [];
  }

  lemma JoinPathOfThree(a: string, b: string, c: string)
    ensures JoinPath([a, b, c]) == "/" + a + "/" + b + "/" + c
  {
    assert [a, b, c][1..] == [b, c];
    JoinPathOfTwo(b, c);
  }

  /** The four renditions every photo gets. */
  datatype Rendition = Original | Large | Medium | Small {
    function Name(): string {
      match this
      case Original => "original"
      case Large => "large"
      case Medium => "medium"
      case Small => "small"
    }
  }

  /** Every file the generator writes into its target directory. */
  datatype Output =
    | RenditionFile(gallery: string, kind: Rendition, n: nat)
    | PhotoPageFile(gallery: string, n: nat)
    | GalleryIndexFile(gallery: string)
    | FrontPageFile

  predicate ValidOutput(o: Output) {
    match o
    case RenditionFile(g, _, _) => Segment(g)
    case PhotoPageFile(g, _) => Segment(g)
    case GalleryIndexFile(g) => Segment(g)
    case FrontPageFile => true
  }

  /** The path segments of an output file below the target directory. */
  function OutputSegments(o: Output): seq<string> {
    match o
    case RenditionFile(g, kind, n) => [g, kind.Name(), Decimal(n) + ".jpg"]
    case PhotoPageFile(g, n) => [g, Decimal(n) + ".html"]
    case GalleryIndexFile(g) => [g, "index.html"]
    case FrontPageFile => ["index.html"]
  }

  /** Where an output file is written, below the target directory `root`. */
  function OutputPath(root: seq<string>, o: Output): string {
    JoinPath(root + OutputSegments(o))
  }

  /** The URL of an output file on the served site. */
  function SitePath(o: Output): string {
    JoinPath(OutputSegments(o))
  }

  lemma DecimalFileNameIsSegment(n: nat, ext: string)
    requires forall i :: 0 <= i < |ext| ==> ext[i] != '/'
    ensures Segment(Decimal(n) + ext)
  {
    var s := Decimal(n) + ext;
    forall i | 0 <= i < |Decimal(n)| ensures s[i] != '/' {
      assert IsDigit(s[i]);
    }
  }

  lemma OutputSegmentsValid(o: Output)
    requires ValidOutput(o)
    ensures AllSegments(OutputSegments(o))
  {
    match o
    case RenditionFile(g, kind, n) => DecimalFileNameIsSegment(n, ".jpg");
    case PhotoPageFile(g, n) => DecimalFileNameIsSegment(n, ".html");
    case GalleryIndexFile(g) =>
    case FrontPageFile =>
  }

  lemma DecimalFileNameInjective(a: nat, b: nat, ext: string)
    requires Decimal(a) + ext == Decimal(b) + ext
    ensures a == b
  {
    var s := Decimal(a) + ext;
    assert Decimal(a) == s[..|s| - |ext|] == Decimal(b);
    DecimalInjective(a, b);
  }

  lemma PhotoPageNameIsNotIndex(n: nat)
    ensures Decimal(n) + ".html" != "index.html"
  {
    assert (Decimal(n) + ".html")[0] == Decimal(n)[0];
    assert IsDigit(Decimal(n)[0]);
  }

  /**
    No two outputs of a build share a file: every (gallery, rendition, index),
    every photo page, every gallery index and the front page have paths of
    their own.
   */
  lemma OutputPathInjective(root: seq<string>, o1: Output, o2: Output)
    requires AllSegments(root) && ValidOutput(o1) && ValidOutput(o2)
    requires OutputPath(root, o1) == OutputPath(root, o2)
    ensures o1 == o2
  {
    var s1, s2 := OutputSegments(o1), OutputSegments(o2);
    OutputSegmentsValid(o1);
    OutputSegmentsValid(o2);
    assert AllSegments(root + s1) && AllSegments(root + s2);
    JoinPathInjective(root + s1, root + s2);
    assert s1 == (root + s1)[|root|..] == (root + s2)[|root|..] == s2;
    match o1
    case RenditionFile(g, kind, n) =>
      var RenditionFile(g', kind', n') := o2;
      assert kind.Name() == kind'.Name();
      DecimalFileNameInjective(n, n', ".jpg");
    case PhotoPageFile(g, n) =>
      PhotoPageNameIsNotIndex(n);
      var PhotoPageFile(g', n') := o2;
      DecimalFileNameInjective(n, n', ".html");
    case GalleryIndexFile(g) =>
      if o2.PhotoPageFile? {
        PhotoPageNameIsNotIndex(o2.n);
      }
    case FrontPageFile =>
  }

  /** The file system path is the target directory followed by the site URL. */
  lemma OutputPathIsRootPlusSitePath(root: seq<string>, o: Output)
    ensures OutputPath(root, o) == JoinPath(root) + SitePath(o)
  {
    JoinPathAppend(root, OutputSegments(o));
  }

  /**
    `imageURL`: `path.join('/', galleryName, sizeName, photoIndex + '.jpg')`.
    The index is any integer: the front page passes `images.length - 1`.
    The text equals `path.join`'s when the names are plain segments; for
    others (empty, or holding '/' or dot segments) `path.join` would
    normalise it.
   */
  function ImageURL(galleryName: string, sizeName: string, photoIndex: int): (url: string)
    ensures url == JoinPath([galleryName, sizeName, IntText(photoIndex) + ".jpg"])
  {
    JoinPathOfThree(galleryName, sizeName, IntText(photoIndex) + ".jpg");
    "/" + galleryName + "/" + sizeName + "/" + IntText(photoIndex) + ".jpg"
  }

  /**
    `photoSiteURL`: the comma operator evaluates `'/'` and `galleryName` and
    discards them, so only the relative file name is left.
   */
  function PhotoSiteURL(galleryName: string, photoIndex: nat): (url: string)
    ensures |url| > 0 && url[0] != '/'
  {
    Decimal(photoIndex) + ".html"
  }

  /**
    The URL a browser reaches from a link `ref` on a page in directory
    `pageDir`: an absolute reference as it is, a relative one (without dot
    segments) below that directory.
   */
  function Resolve(pageDir: seq<string>, ref: string): string {
    if |ref| > 0 && ref[0] == '/' then ref else JoinPath(pageDir) + "/" + ref
  }

  /** `imageURL` of a rendition is the URL of that rendition's file. */
  lemma ImageURLIsRenditionFile(galleryName: string, kind: Rendition, n: nat)
    ensures ImageURL(galleryName, kind.Name(), n) == SitePath(RenditionFile(galleryName, kind, n))
  {
  }

  /** Despite the bug, the link a gallery index page gives photo `n` reaches that photo's page. */
  lemma PhotoSiteURLReachesPhotoPage(galleryName: string, n: nat)
    ensures Resolve([galleryName], PhotoSiteURL(galleryName, n)) == SitePath(PhotoPageFile(galleryName, n))
  {
    JoinPathOfTwo(galleryName, Decimal(n) + ".html");
    assert [galleryName][1..] == [];
  }

  lemma NegativeNameIsNotDecimal(i: int, n: nat)
    requires i < 0
    ensures IntText(i) + ".jpg" != Decimal(n) + ".jpg"
  {
    assert (IntText(i) + ".jpg")[0] == '-';
    assert (Decimal(n) + ".jpg")[0] == Decimal(n)[0];
    assert IsDigit(Decimal(n)[0]);
  }

  /** An image URL with a negative index names no file the build writes. */
  lemma NegativeImageURLIsNoOutput(galleryName: string, sizeName: string, i: int, o: Output)
    requires i < 0
    requires Segment(galleryName) && Segment(sizeName) && ValidOutput(o)
    ensures ImageURL(galleryName, sizeName, i) != SitePath(o)
  {
    var file := IntText(i) + ".jpg";
    if ImageURL(galleryName, sizeName, i) == SitePath(o) {
      assert Segment(file) by {
        forall k | 0 <= k < |file| ensures file[k] != '/' {
          if k > 0 && k < |IntText(i)| {
            assert file[k] == Decimal(-i)[k - 1];
            assert IsDigit(Decimal(-i)[k - 1]);
          }
        }
      }
      OutputSegmentsValid(o);
      JoinPathInjective([galleryName, sizeName, file], OutputSegments(o));
      if o.RenditionFile? {
        NegativeNameIsNotDecimal(i, o.n);
      }
    }
  }
}
