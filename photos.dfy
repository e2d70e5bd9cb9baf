/**
 * The photo records the photo library works with, and the browser `File`
 * objects the upload form collects.
 */
module Photos {
  import opened Wrappers
  import opened Rides

  /** A photo as the API returns it. `year` stands for the calendar year of
      `dateTaken || uploadedAt`, an attribute the model does not compute. */
  datatype Photo = Photo(
    id: PhotoId,
    filename: string,
    dateTaken: Option<string>,
    uploadedAt: string,
    description: string,
    tags: string,
    year: int)

  /** The key photo lists are searched by. */
  function PhotoKey(p: Photo): PhotoId { p.id }

  /** A file chosen in the browser: its name, MIME type and size in bytes. */
  datatype File = File(name: string, mimeType: string, size: nat)
}
