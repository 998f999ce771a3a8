/**
 * The second onboarding step (app/owner/details2/page.tsx): the owner
 * uploads and crops a logo, which is stored as soon as the crop is saved;
 * submitting requires a logo.
 */
module DetailsLogo {
  import opened Wrappers
  import opened Browser

  const LogoKey := "restaurantLogo"
  const SuccessRoute := "/owner/success"
  const UploadLogoError := "Please upload your logo"

  class DetailsLogoPage {
    /** The image shown in the crop editor. */
    var imageSrc: Option<string>
    /** The saved logo. */
    var croppedImage: Option<string>
    var showCrop: bool
    var cropArea: Option<CropArea>
    var error: string
    /** Where the router was pushed, if anywhere. */
    var route: Option<string>
    const store: Storage

    constructor (store: Storage)
      ensures this.store == store
      ensures imageSrc == None && croppedImage == None && !showCrop && cropArea == None
      ensures error == "" && route == None
    {
      this.store := store;
      imageSrc := None;
      croppedImage := None;
      showCrop := false;
      cropArea := None;
      error := "";
      route := None;
    }

    /** The progress bar: the first step is done, the second once a logo exists. */
    function Progress(): (r: int)
      reads this
      ensures r == 100 <==> Truthy(croppedImage)
      ensures r == 50 <==> !Truthy(croppedImage)
    {
      if Truthy(croppedImage) then 100 else 50
    }

    /** `onCropComplete`: the cropper reports the selected area. */
    method OnCropComplete(area: CropArea)
      modifies this
      ensures cropArea == Some(area)
      ensures imageSrc == old(imageSrc) && croppedImage == old(croppedImage) && showCrop == old(showCrop)
      ensures error == old(error) && route == old(route)
    {
      cropArea := Some(area);
    }

    /** `handleLogoUpload`: an image file opens the crop editor on it; anything else is ignored. */
    method LogoUpload(files: Option<seq<UploadFile>>)
      modifies this
      ensures PickImage(files).Some? ==> imageSrc == PickImage(files) && showCrop
      ensures PickImage(files).None? ==> imageSrc == old(imageSrc) && showCrop == old(showCrop)
      ensures croppedImage == old(croppedImage) && cropArea == old(cropArea)
      ensures error == old(error) && route == old(route)
    {
      var url := PickImage(files);
      if url.None? {
        return;
      }
      imageSrc := url;
      showCrop := true;
    }

    /**
     * `saveCrop`: with a source and an area, the cropped image (from `crop`,
     * standing for the canvas export) becomes the logo, is stored, and
     * clears the error.
     */
    method SaveCrop(crop: (string, CropArea) -> Option<string>)
      modifies this, store
      ensures var ok := Truthy(old(imageSrc)) && old(cropArea).Some? &&
                        Truthy(crop(old(imageSrc).value, old(cropArea).value));
        (ok ==>
          croppedImage == crop(old(imageSrc).value, old(cropArea).value) && !showCrop && error == "" &&
          store.items == old(store.items)[LogoKey := croppedImage.value]) &&
        (!ok ==>
          croppedImage == old(croppedImage) && showCrop == old(showCrop) && error == old(error) &&
          store.items == old(store.items))
      ensures imageSrc == old(imageSrc) && cropArea == old(cropArea) && route == old(route)
    {
      if !Truthy(imageSrc) || cropArea.None? {
        return;
      }
      var cropped := crop(imageSrc.value, cropArea.value);
      if !Truthy(cropped) {
        return;
      }
      croppedImage := cropped;
      store.SetItem(LogoKey, cropped.value);
      showCrop := false;
      error := "";
    }

    /** The Edit button: reopen the crop editor on the current source. */
    method OpenCrop()
      modifies this
      ensures showCrop
      ensures imageSrc == old(imageSrc) && croppedImage == old(croppedImage) && cropArea == old(cropArea)
      ensures error == old(error) && route == old(route)
    {
      showCrop := true;
    }

    /** The crop editor's Cancel button. */
    method CloseCrop()
      modifies this
      ensures !showCrop
      ensures imageSrc == old(imageSrc) && croppedImage == old(croppedImage) && cropArea == old(cropArea)
      ensures error == old(error) && route == old(route)
    {
      showCrop := false;
    }

    /** The Remove button: the logo goes, on the page and in storage. */
    method Remove()
      modifies this, store
      ensures croppedImage == None && store.items == old(store.items) - {LogoKey}
      ensures imageSrc == old(imageSrc) && showCrop == old(showCrop) && cropArea == old(cropArea)
      ensures error == old(error) && route == old(route)
    {
      croppedImage := None;
      store.RemoveItem(LogoKey);
    }

    /** `handleSubmit`: a logo is mandatory before moving on. */
    method Submit()
      modifies this
      ensures !Truthy(old(croppedImage)) ==> error == UploadLogoError && route == old(route)
      ensures Truthy(old(croppedImage)) ==> route == Some(SuccessRoute) && error == old(error)
      ensures imageSrc == old(imageSrc) && croppedImage == old(croppedImage)
      ensures showCrop == old(showCrop) && cropArea == old(cropArea)
      ensures store.items == old(store.items)
    {
      if !Truthy(croppedImage) {
        error := UploadLogoError;
        return;
      }
      route := Some(SuccessRoute);
    }
  }

  /**
   * Upload, crop and submit end at the success page with the cropped logo
   * stored and the progress at 100.
   */
  method UploadCropSubmit(items: map<string, string>, files: Option<seq<UploadFile>>, area: CropArea,
                          crop: (string, CropArea) -> Option<string>)
    returns (progress: int, route: Option<string>, stored: Option<string>)
    requires Truthy(PickImage(files))
    requires Truthy(crop(PickImage(files).value, area))
    ensures progress == 100 && route == Some(SuccessRoute)
    ensures stored == crop(PickImage(files).value, area)
  {
    var store := new Storage(items);
    var page := new DetailsLogoPage(store);
    page.LogoUpload(files);
    page.OnCropComplete(area);
    page.SaveCrop(crop);
    page.Submit();
    progress := page.Progress();
    route := page.route;
    stored := store.GetItem(LogoKey);
  }

  /** After Remove, submitting is refused with the upload message and the progress falls back to 50. */
  method RemoveBlocksSubmit(items: map<string, string>, files: Option<seq<UploadFile>>, area: CropArea,
                            crop: (string, CropArea) -> Option<string>)
    returns (progress: int, route: Option<string>, error: string, stored: Option<string>)
    ensures progress == 50 && route == None && error == UploadLogoError && stored == None
  {
    var store := new Storage(items);
    var page := new DetailsLogoPage(store);
    page.LogoUpload(files);
    page.OnCropComplete(area);
    page.SaveCrop(crop);
    page.Remove();
    page.Submit();
    progress := page.Progress();
    route := page.route;
    error := page.error;
    stored := store.GetItem(LogoKey);
  }
}
