/**
 * `UploadComponent`: collects the files the user picks or drops, lets them (de)select images, and
 * after uploading the selected ones decides how the transform page will configure them.
 */
module Upload {
  import opened Wrappers
  import opened Http
  import opened ImageModel
  import opened Images

  const ConfigureRoute := "/images/configure"

  /**
   * `toggleImageSelection`'s new list: the `selected` flag of the images whose id is `id` is flipped;
   * nothing else changes.
   */
  function FlipSelected(images: seq<ImageFile>, id: string): (r: seq<ImageFile>)
    ensures |r| == |images|
    ensures forall i :: 0 <= i < |images| ==> r[i].(selected := images[i].selected) == images[i]
    ensures forall i :: 0 <= i < |images| ==> (r[i].selected != images[i].selected <==> images[i].id == id)
  {
    seq(|images|, i requires 0 <= i < |images| =>
      if images[i].id == id then images[i].(selected := !images[i].selected) else images[i])
  }

  /** Toggling the same image twice restores the list. */
  lemma FlipSelectedTwice(images: seq<ImageFile>, id: string)
    ensures FlipSelected(FlipSelected(images, id), id) == images
  {
    var once := FlipSelected(images, id);
    var twice := FlipSelected(once, id);
    forall i | 0 <= i < |images| ensures twice[i] == images[i] {
      assert once[i].id == images[i].id;
    }
  }

  class UploadComponent {
    const imageService: ImageService
    var invalidFiles: seq<string>
    var applyToAll: bool
    /** The route the component last asked the router for. */
    var lastNavigation: Option<string>

    constructor (service: ImageService)
      ensures imageService == service && invalidFiles == [] && !applyToAll && lastNavigation == None
    {
      imageService := service;
      invalidFiles := [];
      applyToAll := false;
      lastNavigation := None;
    }

    /** `hasSelectedImages`: there is something to upload exactly when the filtered list is not empty. */
    predicate HasSelectedImages(): (r: bool)
      reads imageService
      ensures r <==> SelectedOnly(imageService.selectedImages) != []
    {
      AnySelectedIffSelectedOnly(imageService.selectedImages);
      AnySelected(imageService.selectedImages)
    }

    /**
     * `processFiles`: the accepted files are appended after the images already listed, and the rejected
     * names replace the previous ones.
     */
    method ProcessFiles(files: seq<FileInfo>, ids: seq<string>)
      requires |ids| == |files|
      modifies this`invalidFiles, imageService`selectedImages
      ensures imageService.selectedImages == old(imageService.selectedImages) + AcceptedImages(files, ids, IsValidFileType)
      ensures invalidFiles == RejectedNames(files, IsValidFileType)
    {
      var valid, invalid := imageService.ProcessFiles(files, ids);
      invalidFiles := invalid;
      if |valid| > 0 {
        imageService.selectedImages := imageService.selectedImages + valid;
      }
    }

    /** `toggleImageSelection`. */
    method ToggleImageSelection(image: ImageFile)
      modifies imageService`selectedImages
      ensures imageService.selectedImages == FlipSelected(old(imageService.selectedImages), image.id)
    {
      imageService.selectedImages := FlipSelected(imageService.selectedImages, image.id);
    }

    /** `clearSelection`. */
    method ClearSelection()
      modifies this`invalidFiles, this`applyToAll, imageService`selectedImages
      ensures imageService.selectedImages == [] && invalidFiles == [] && !applyToAll
    {
      imageService.selectedImages := [];
      invalidFiles := [];
      applyToAll := false;
    }

    /**
     * `continueToTransform`: with no image selected nothing happens. Otherwise the selected images,
     * and only they, are uploaded (`uploaded`); after a successful upload the mode and configuration
     * follow `applyToAll` and the router is sent to the configuration page, after a failed one the
     * mode and configuration are left alone.
     */
    method ContinueToTransform(response: Response<UploadBody>) returns (uploaded: Option<seq<ImageFile>>)
      requires imageService.Valid()
      modifies this`lastNavigation, imageService
      ensures imageService.Valid()
      ensures !old(HasSelectedImages()) ==>
        uploaded == None && unchanged(imageService) && lastNavigation == old(lastNavigation)
      ensures old(HasSelectedImages()) ==>
        && uploaded == Some(SelectedOnly(old(imageService.selectedImages)))
        && uploaded.value != []
        && imageService.selectedImages == old(imageService.selectedImages)
        && imageService.progress == old(imageService.progress)
        && imageService.currentBatch == old(imageService.currentBatch)
        && !imageService.isLoading
        && imageService.errorMessage == (if response.Threw? then UploadError else "")
      ensures old(HasSelectedImages()) && !UploadSucceeded(response) ==>
        && imageService.transformationMode == old(imageService.transformationMode)
        && imageService.transformationConfig == old(imageService.transformationConfig)
        && lastNavigation == old(lastNavigation)
      ensures old(HasSelectedImages()) && UploadSucceeded(response) ==>
        && imageService.transformationMode == (if applyToAll then BatchMode else IndividualMode)
        && imageService.transformationConfig == Some(UploadConfig(applyToAll, [], JPG))
        && lastNavigation == Some(ConfigureRoute)
    {
      if !HasSelectedImages() {
        return None;
      }
      var selected := SelectedOnly(imageService.selectedImages);
      AnySelectedIffSelectedOnly(imageService.selectedImages);
      uploaded := Some(selected);
      var ok := imageService.UploadImages(selected, response);
      if !ok {
        return;
      }
      imageService.transformationMode := if applyToAll then BatchMode else IndividualMode;
      imageService.transformationConfig := Some(UploadConfig(applyToAll, [], JPG));
      lastNavigation := Some(ConfigureRoute);
    }
  }

  /** What `uploadImages` reports as success: a delivered body whose `success` flag is set. */
  predicate UploadSucceeded(response: Response<UploadBody>) {
    response.Delivered? && response.body.Some? && response.body.value.success
  }

  /** A thrown request, a null body and a body with `success: false` all count as failures. */
  lemma UploadSucceededMeaning(response: Response<UploadBody>)
    ensures UploadSucceeded(response) <==> response == Delivered(Some(UploadBody(true)))
  {
  }
}
