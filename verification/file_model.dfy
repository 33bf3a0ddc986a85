/** The records exchanged by the upload service (src/models/file.model.ts). */
module FileModel {
  import opened Outcomes

  newtype byte = x: int | 0 <= x < 256
  type Bytes = seq<byte>

  /** A point in time, as milliseconds since the epoch (a JavaScript `Date`). */
  type Timestamp = int

  /** The MIME types the application accepts (`AppMimeType`). */
  datatype AppMimeType =
    | TextPlain | TextHtml | TextCss | TextJavascript
    | ImageGif | ImagePng | ImageJpeg | ImageBmp | ImageWebp
    | AudioMidi | AudioMpeg | AudioWebm | AudioOgg | AudioWav
    | VideoWebm | VideoOgg
    | ApplicationOctetStream | ApplicationPkcs12 | ApplicationVndMspowerpoint
    | ApplicationXhtmlXml | ApplicationXml | ApplicationPdf
    | MultipartFormData | MultipartByteranges

  /** The string literal that stands for each member of the union type. */
  function MimeString(m: AppMimeType): string
  {
    match m
    case TextPlain => "text/plain"
    case TextHtml => "text/html"
    case TextCss => "text/css"
    case TextJavascript => "text/javascript"
    case ImageGif => "image/gif"
    case ImagePng => "image/png"
    case ImageJpeg => "image/jpeg"
    case ImageBmp => "image/bmp"
    case ImageWebp => "image/webp"
    case AudioMidi => "audio/midi"
    case AudioMpeg => "audio/mpeg"
    case AudioWebm => "audio/webm"
    case AudioOgg => "audio/ogg"
    case AudioWav => "audio/wav"
    case VideoWebm => "video/webm"
    case VideoOgg => "video/ogg"
    case ApplicationOctetStream => "application/octet-stream"
    case ApplicationPkcs12 => "application/pkcs12"
    case ApplicationVndMspowerpoint => "application/vnd.mspowerpoint"
    case ApplicationXhtmlXml => "application/xhtml+xml"
    case ApplicationXml => "application/xml"
    case ApplicationPdf => "application/pdf"
    case MultipartFormData => "multipart/form-data"
    case MultipartByteranges => "multipart/byteranges"
  }

  /** A file as the multipart layer hands it over (`BufferedFile`). */
  datatype BufferedFile = BufferedFile(
    fieldname: string,
    originalname: string,
    encoding: string,
    mimetype: AppMimeType,
    size: nat,
    buffer: Bytes)

  /** Descriptive attributes of a stored file (`StoredFileMetadata`); `id` and
      `updatedAt` are optional here because records built by the code leave them out. */
  datatype StoredFileMetadata = StoredFileMetadata(
    id: Option<string>,
    name: string,
    encoding: string,
    mimetype: AppMimeType,
    size: nat,
    updatedAt: Option<Timestamp>,
    fileSrc: Option<string>)

  /** Metadata together with the content (`StoredFile`, which extends `HasFile`). */
  datatype StoredFile = StoredFile(
    id: string,
    file: Bytes,
    name: string,
    encoding: string,
    mimetype: AppMimeType,
    size: nat,
    updatedAt: Option<Timestamp>,
    fileSrc: Option<string>)
}
