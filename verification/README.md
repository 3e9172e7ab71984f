# gould.io gallery generator — Dafny model

This project models the page-building core of the gould.io photo-gallery
generator (`lib/makeGallery.js`). It covers:

- the two metadata formatters: `shotDate` for the capture date and
  `shutterSpeed` for the exposure time;
- the photo record that `fetchPhotoData` assembles from the outcomes of its
  sub-tasks;
- the URL builders `imageURL`, `photoSiteURL` and
  `googleAnalyticsTrackingHTML`, together with the paths of every file the
  build writes;
- the three page builders:
  - `photoHTML`: the page of one photo, with its navigation;
  - `galleryHTML`: a gallery's index page, with one thumbnail per photo;
  - the front-page loop of `makeGallery`: one cover per published gallery.

Module by module:

- `Numerals` (`numerals.dfy`) models how JavaScript prints a whole number
  when it is concatenated to a string. It proves that the printed text reads
  back to the number and back to the text, so file names such as `12.jpg`
  are injective in the index.
- `Paths` (`paths.dfy`) models `path.join` over plain segments, the
  rendition kinds, the output files of a build and how a browser resolves a
  link. It proves:
  - that joining loses nothing;
  - that no two outputs of a build share a path;
  - that the image, thumbnail, original and navigation links of a photo
    reach the files written for it, provided the photo's record was built
    (a photo whose record is missing gets no page, so links to it are broken);
  - that the cover of a published gallery without photos points at
    `-1.jpg`, which no build writes.

  Links to a gallery's directory (`/<gallery>/`), to the site root (`/`) and
  to `/site.css` are not resolved by the model.
- `Formatters` (`formatters.dfy`) models `shotDate` and `shutterSpeed`:
  - `shotDate` as the ":"→"-" rewrite of the EXIF stamp, then the parse of
    the resulting local date-time;
  - `shutterSpeed` over exact rationals (`real`), with `Math.round` as
    "nearest, half up".
- `Records` (`records.dfy`) models the record literal. Each of the five
  sub-tasks that can fail is an input that either succeeded or not; the copy
  of the original always resolves.
- `Html` (`html.dfy`) holds what the pages share: the head, the analytics
  snippet and the concatenation of fragments.
- `PhotoPage`, `GalleryPage` and `Site` (`photo_page.dfy`,
  `gallery_page.dfy`, `site.dfy`) model `photoHTML`, `galleryHTML` and the
  `makeGallery` loop as methods that append to a string, as the source does.
  Each method is proved equal to a page function, and lemmas state what the
  pages link to.

JavaScript falsiness of the tracking id (missing, `null`, `""`) is modelled
by the empty string.

In the code, photo pages read the tracking id from
`config.googleAnalyticsTrackingId`, while gallery index pages read it from
`config.tracking.googleAnalyticsTrackingId`. A configuration without a
`tracking` object makes the first gallery throw. The model keeps the two ids
apart:
- `Site.Config` carries both ids, and `Site.PhotoPageWrite` builds a photo
  page from the top-level one;
- `Site.MakeGallery` returns `None` in that case.

## Model

| member | source | states |
|---|---|---|
| Numerals.Decimal | lib/makeGallery.js:66 | the number printed in a file name is a non-empty digit string without leading zero, starting with '0' only for zero |
| Numerals.IntText | lib/makeGallery.js:199-200 | an integer prints as its decimal digits, with a leading '-' exactly when it is negative |
| Numerals.DecimalRoundTrip | lib/makeGallery.js:66 | the printed digits of `n` read back to `n` |
| Numerals.DigitsRoundTrip | lib/makeGallery.js:66 | every canonical digit string is the printed form of its value |
| Numerals.DecimalInjective | lib/makeGallery.js:66 | two indices print alike exactly when they are equal |
| Numerals.IntTextInjective | lib/makeGallery.js:218-220 | two integers (negative ones included) print alike exactly when they are equal |
| Paths.JoinPath | lib/makeGallery.js:218-220 | a '/' before each segment: no text for no segments (where `path.join` gives "/"), an absolute path otherwise |
| Paths.JoinPathAppend | lib/makeGallery.js:66 | joining a target directory and a relative path is the concatenation of the two joins |
| Paths.JoinPathInjective | lib/makeGallery.js:66 | joined plain segments determine the segments |
| Paths.OutputPathInjective | lib/makeGallery.js:65-209 | two outputs of a build (renditions, photo pages, gallery indexes, the front page) written to the same path are the same output |
| Paths.OutputPathIsRootPlusSitePath | lib/makeGallery.js:181 | the path of an output file is the target directory followed by the file's URL |
| Paths.ImageURL | lib/makeGallery.js:218-220 | `imageURL` is the join of gallery, size and `<index>.jpg` |
| Paths.PhotoSiteURL | lib/makeGallery.js:213-215 | `photoSiteURL` is a relative reference: the comma operator drops the '/' and the gallery |
| Paths.ImageURLIsRenditionFile | lib/makeGallery.js:218-220 | the image URL of a rendition of photo `n` is the URL of the file written for that rendition |
| Paths.PhotoSiteURLReachesPhotoPage | lib/makeGallery.js:213-215 | resolved from a gallery's directory, `photoSiteURL` reaches the page written for that photo |
| Paths.NegativeImageURLIsNoOutput | lib/makeGallery.js:198-200 | an image URL with a negative index reaches no file the build writes |
| Formatters.ReplaceChar | lib/makeGallery.js:16 | `split(':').join('-')` keeps the length and replaces exactly the colons |
| Formatters.ParseIsoDate | lib/makeGallery.js:17-18 | parsing a valid local date-time gives a month 0..11 and a day 1..31 |
| Formatters.IsoDateTimeKeepsFields | lib/makeGallery.js:15-17 | the rewritten stamp is a valid ISO date-time carrying the same year, month, day and time digits |
| Formatters.ShotDate | lib/makeGallery.js:14-19 | the result is the month's name, the day without padding, ", ", and the year |
| Formatters.ShotDateOfMoment | lib/makeGallery.js:14-19 | for every real moment of a four-digit year, the camera's stamp is accepted and shows that month, day and year |
| Formatters.Round | lib/makeGallery.js:26 | `Math.round` gives the integer within half of `x`, halves rounded up |
| Formatters.TenthsText | lib/makeGallery.js:26 | a number of tenths prints as digits with a '.' exactly when it is not whole |
| Formatters.TenthsRoundTrip | lib/makeGallery.js:26 | the printed tenths read back to the number of tenths |
| Formatters.ShutterSpeed | lib/makeGallery.js:22-30 | "1 second" exactly for one second, a " seconds" suffix exactly above one second, a "1/" prefix exactly below |
| Formatters.ShutterSpeedOfFraction | lib/makeGallery.js:28 | an exposure under a second shows "1/" and the whole number nearest its reciprocal |
| Formatters.ShutterSpeedOfSeconds | lib/makeGallery.js:25-26 | an exposure over a second shows its length rounded to the nearest tenth, which reads back |
| Formatters.ShutterSpeedTwoSeconds | lib/makeGallery.js:25-26 | 2 s reads "2 seconds" |
| Formatters.ShutterSpeedFraction250 | lib/makeGallery.js:28 | 0.004 s reads "1/250" |
| Formatters.ShutterSpeedTwoAndAHalf | lib/makeGallery.js:25-26 | 2.5 s reads "2.5 seconds" |
| Formatters.ShutterSpeedJustOverOneSecond | lib/makeGallery.js:25-26 | 1.04 s is rounded to one tenth but keeps the plural: "1 seconds" |
| Records.FetchPhotoData | lib/makeGallery.js:145-170 | a record exists exactly when every sub-task succeeded; its size is the large rendition's, its date and exposure the formatted EXIF fields |
| Records.RecordIgnoresSourceSize | lib/makeGallery.js:155-157 | the source image's size never reaches the record |
| Html.AnalyticsHTML | lib/makeGallery.js:223-234 | the snippet is one script element from which the tracking id reads back |
| Html.AnalyticsOnlyWhenTruthy | lib/makeGallery.js:245-247 | a truthy id splices the snippet in right after the stylesheet link, a falsy one leaves the page unchanged |
| PhotoPage.PhotoHTML | lib/makeGallery.js:237-277 | the page built by appending is the photo page: head, optional snippet, back link, navigation, figure |
| PhotoPage.NavigationBoundaries | lib/makeGallery.js:255-257 | "previous" links to `n-1` exactly when `n > 0`, "next" to `n+1` exactly when `n < length-1`, each disabled otherwise; one photo has both disabled |
| PhotoPage.NavigationChain | lib/makeGallery.js:255-257 | "next" leads to a photo of the gallery whose "previous" leads back, and the other way round |
| PhotoPage.NavigationLinksResolve | lib/makeGallery.js:255-257 | an enabled navigation link reaches the page written for the neighbouring photo |
| PhotoPage.FigureLinksResolve | lib/makeGallery.js:259-262 | the figure shows the large rendition's file and links to the original's file |
| PhotoPage.PhotoPageOfRecord | lib/makeGallery.js:259-271 | a photo's figure shows the large rendition at its written size, with the formatted date, exposure and raw aperture |
| GalleryPage.Thumbnails | lib/makeGallery.js:296-302 | one thumbnail per photo, thumbnail `i` for photo `i` |
| GalleryPage.GalleryHTML | lib/makeGallery.js:280-309 | the page built by the loop is the gallery page: head, optional snippet, title, the thumbnails in order, footer |
| GalleryPage.ThumbnailLinksResolve | lib/makeGallery.js:298-299 | a thumbnail links to the photo's page and shows the photo's small rendition |
| GalleryPage.ThumbnailsInOrder | lib/makeGallery.js:296-302 | the thumbnails up to photo `i` form a prefix of all of them |
| Site.IndexWrites | lib/makeGallery.js:189-193 | one index page per gallery, in configuration order, at the gallery's `index.html` |
| Site.MakeGallery | lib/makeGallery.js:119-209 | without a `tracking` object a non-empty build throws; otherwise it writes every gallery index, then the front page of published covers |
| Site.PublishedMembership | lib/makeGallery.js:196 | a gallery is on the front page exactly when it is configured and published |
| Site.PublishedAppend | lib/makeGallery.js:132-203 | covers keep configuration order across any split of the galleries |
| Site.CoverShowsLastPhoto | lib/makeGallery.js:198-200 | a non-empty gallery's cover is the file written for its last photo's medium rendition |
| Site.EmptyCoverIsBroken | lib/makeGallery.js:198-200 | a published gallery without photos gets a cover URL (`-1.jpg`) that no written file has |
| Site.PhotoPageWrite | lib/makeGallery.js:173-183 | the page of a record is written to that photo's page file in the configured gallery the record names, and its head carries the top-level tracking id |
| Site.PhotoPageWriteReached | lib/makeGallery.js:173-183 | the file written for a photo is the one its thumbnail on the gallery's index page, the previous photo's "next" link and the next photo's "previous" link reach |
| Site.TrackingIdsIndependent | lib/makeGallery.js:173-193 | a photo page does not depend on the `tracking` object, and the id index pages use does not depend on the top-level id |
| Site.PageWritesDisjoint | lib/makeGallery.js:189-209 | with distinct plain gallery names, no two index pages, nor an index page and the front page, are written to the same path |

## Left out

- Image transforms (resizing, cropping, quality) and EXIF decoding belong to
  external libraries. Their outcomes are inputs of `Records.FetchPhotoData`,
  and copying the original is assumed to succeed, as in the code.
- Promises and concurrency are not modelled: each photo's six sub-tasks are
  taken as settled.
  - The photo pages written in `then` callbacks are not part of
    `Site.MakeGallery`'s result. `Site.PhotoPageWrite` gives the page
    written for a built record, and `PhotoPage.PhotoHTML` is proved to build
    its content.
  - Console output is not modelled.
- File system effects are not modelled: creating directories, copying
  `site.css`, and the order or failure of `fs.writeFile`.
- Records.FetchPhotoData requires a well-formed, valid EXIF date and a
  positive exposure time. What `Date` does with a malformed stamp
  (`NaN`/`undefined` text) is not modelled.
- Formatters.ShotDate does not model time zones: a stamp is read as the
  local time it names, so DST gaps are not modelled.
- Formatters.ShutterSpeed uses exact rationals in place of IEEE doubles.
  Float rounding of `seconds * 10` and `1 / seconds`, and JavaScript's
  exponent notation for huge numbers, are not modelled.
- Paths.JoinPath covers plain segments only (non-empty, no '/').
  Normalisation of `.`, `..` and doubled separators is not modelled, and
  neither is `path.join`'s "/" for no segments.
- Paths.ImageURL places no requirement on its names. For an empty name, or
  one holding '/' or dot segments, it gives the unnormalised text, where
  `path.join` would normalise.
- Site.MakeGallery takes the galleries in the order `for...in` visits them.
  Inherited enumerable properties and integer-like gallery names, which
  `for...in` visits first, are not modelled.
- Command-line entry point and configuration loading: `build.js` is not part
  of this model.
