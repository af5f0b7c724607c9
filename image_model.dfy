/** The records of `image.model.ts`, as values. */
module ImageModel {
  import opened Wrappers
  import opened JsValues

  /** What the browser's `File` tells the client: its name, its size in bytes and its MIME type. */
  datatype FileInfo = FileInfo(name: string, size: nat, mimeType: string)

  /** `ImageFile`: an accepted file in the upload list. The `File` handle and the preview URL are not modelled. */
  datatype ImageFile = ImageFile(id: string, name: string, size: nat, mimeType: string, selected: bool)

  datatype TransformationKind = Filter | Adjustment | Format

  /** `Transformation`; `parameters` is absent on the filters of the catalogue. */
  datatype Transformation = Transformation(
    id: string, name: string, kind: TransformationKind, parameters: Option<map<string, Json>>)

  datatype OutputFormat = JPG | PNG | TIF

  /** `ImageTransformationConfig`: what one image gets in individual mode. */
  datatype ImageConfig = ImageConfig(imageId: string, transformations: seq<Transformation>, outputFormat: OutputFormat)

  /**
   * `BatchTransformationRequest`, plus the `images` field the transform component adds: the ids of
   * the images to process.
   */
  datatype TransformRequest = TransformRequest(
    applyToAll: bool,
    transformations: Option<seq<Transformation>>,
    outputFormat: Option<OutputFormat>,
    imageConfigs: Option<seq<ImageConfig>>,
    images: seq<string>)

  datatype TransformedImage = TransformedImage(
    id: string, originalName: string, transformedName: string, downloadUrl: string, size: nat, format: string)

  datatype BatchResult = BatchResult(
    batchId: string, images: seq<TransformedImage>, totalSize: nat, imageCount: nat, downloadZipUrl: Option<string>)

  /** The status of `TransformationProgress`, with the 'idle' value the service also uses. */
  datatype ProgressStatus = Idle | Processing | Completed | Error

  datatype Progress = Progress(total: nat, processed: nat, percentage: nat, status: ProgressStatus)

  datatype TransformationMode = BatchMode | IndividualMode

  /** The object the upload component stores in `transformationConfig` after a successful upload. */
  datatype UploadConfig = UploadConfig(applyToAll: bool, transformations: seq<Transformation>, outputFormat: OutputFormat)

  /** The part of the upload response the client reads. */
  datatype UploadBody = UploadBody(success: bool)
}
