/**
  The photo record `fetchPhotoData` resolves with, built from the results of
  the six concurrent sub-tasks of one photo. The image library and the EXIF
  reader are not modelled: their outcomes are inputs here.
 */
module Records {
  import opened Wrappers
  import opened Formatters

  /** Pixel dimensions reported by the image library. */
  datatype Size = Size(width: nat, height: nat)

  /**
    The EXIF fields the generator reads. The aperture is carried as the text
    JavaScript prints for the number (it is never formatted).
   */
  datatype Exif = Exif(dateTimeOriginal: string, exposureTime: real, fNumber: string)

  /** One entry of a gallery's `images` list in the configuration. */
  datatype ImageSpec = ImageSpec(filename: string, title: string)

  datatype PhotoRecord = PhotoRecord(
    galleryName: string,
    photoIndex: nat,
    title: string,
    filename: string,
    width: nat,
    height: nat,
    takenAt: string,
    shutterSpeed: string,
    fNumber: string)

  predicate ValidExif(e: Exif) {
    WellFormedExifDate(e.dateTimeOriginal) && e.exposureTime > 0.0
  }

  /**
    The record of photo `n`, once every sub-task has settled.

    - `probe`: the source size (`fetchSize`); it never rejects, but an
      undefined size makes the unused `results[0].width` throw;
    - `exif`: the EXIF reader, which rejects on error;
    - `large`: the large rendition's size; a failed write rejects, and an
      undefined size makes `results[2].width` throw;
    - `mediumWritten`, `smallWritten`: whether those writes succeeded;
    - the copy of the original always resolves.

    The record exists exactly when all of them succeeded; its width and
    height are those of the large rendition, not of the source.
   */
  function FetchPhotoData(
    galleryName: string, filename: string, photo: ImageSpec, n: nat,
    probe: Option<Size>, exif: Option<Exif>, large: Option<Size>,
    mediumWritten: bool, smallWritten: bool): (r: Option<PhotoRecord>)
    requires exif.Some? ==> ValidExif(exif.value)
    ensures r.Some? <==> probe.Some? && exif.Some? && large.Some? && mediumWritten && smallWritten
    ensures r.Some? ==>
      && r.value.galleryName == galleryName && r.value.photoIndex == n
      && r.value.title == photo.title && r.value.filename == filename
      && r.value.width == large.value.width && r.value.height == large.value.height
      && r.value.takenAt == ShotDate(exif.value.dateTimeOriginal)
      && r.value.shutterSpeed == ShutterSpeed(exif.value.exposureTime)
      && r.value.fNumber == exif.value.fNumber
  {
    if probe.None? || exif.None? || large.None? || !mediumWritten || !smallWritten then
      None
    else
      var e := exif.value;
      Some(PhotoRecord(
        galleryName := galleryName,
        photoIndex := n,
        title := photo.title,
        filename := filename,
        width := large.value.width,
        takenAt := ShotDate(e.dateTimeOriginal),
        height := large.value.height,
        shutterSpeed := ShutterSpeed(e.exposureTime),
        fNumber := e.fNumber))
  }

  /**
    The source image's own size never reaches the record: any two successful
    probes give the same record.
   */
  lemma RecordIgnoresSourceSize(
    galleryName: string, filename: string, photo: ImageSpec, n: nat,
    p1: Size, p2: Size, exif: Option<Exif>, large: Option<Size>,
    mediumWritten: bool, smallWritten: bool)
    requires exif.Some? ==> ValidExif(exif.value)
    ensures FetchPhotoData(galleryName, filename, photo, n, Some(p1), exif, large, mediumWritten, smallWritten)
         == FetchPhotoData(galleryName, filename, photo, n, Some(p2), exif, large, mediumWritten, smallWritten)
  {
  }
}
