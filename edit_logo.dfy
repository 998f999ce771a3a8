/**
 * The logo editor (app/owner/edit-logo/page.tsx). The logo being edited is
 * a draft held by the page; storage is written only when the owner saves,
 * and cancelling writes back the logo that was stored when the page opened.
 */
module EditLogo {
  import opened Wrappers
  import opened Browser

  const LogoKey := "restaurantLogo"
  const DashboardRoute := "/owner/dashboard"
  const AddLogoError := "Please add a logo"

  class EditLogoPage {
    /** The image shown in the crop editor. */
    var imageSrc: Option<string>
    /** The draft logo. */
    var croppedImage: Option<string>
    /** The stored logo found when the page opened, kept to restore on cancel. */
    var originalLogo: Option<string>
    var showCrop: bool
    var cropArea: Option<CropArea>
    var error: string
    /** Where `window.location.href` was sent, if anywhere. */
    var location: Option<string>
    const store: Storage

    constructor (store: Storage)
      ensures this.store == store
      ensures imageSrc == None && croppedImage == None && originalLogo == None
      ensures !showCrop && cropArea == None && error == "" && location == None
    {
      this.store := store;
      imageSrc := None;
      croppedImage := None;
      originalLogo := None;
      showCrop := false;
      cropArea := None;
      error := "";
      location := None;
    }

    /** The mount effect: a stored logo becomes both the draft and the backup. */
    method LoadCurrent()
      modifies this
      ensures Truthy(store.GetItem(LogoKey)) ==>
        croppedImage == store.GetItem(LogoKey) && originalLogo == store.GetItem(LogoKey)
      ensures !Truthy(store.GetItem(LogoKey)) ==>
        croppedImage == old(croppedImage) && originalLogo == old(originalLogo)
      ensures imageSrc == old(imageSrc) && showCrop == old(showCrop) && cropArea == old(cropArea)
      ensures error == old(error) && location == old(location)
    {
      var savedLogo := store.GetItem(LogoKey);
      if Truthy(savedLogo) {
        croppedImage := savedLogo;
        originalLogo := savedLogo;
      }
    }

    /** `onCropComplete`: the cropper reports the selected area. */
    method OnCropComplete(area: CropArea)
      modifies this
      ensures cropArea == Some(area)
      ensures imageSrc == old(imageSrc) && croppedImage == old(croppedImage) && originalLogo == old(originalLogo)
      ensures showCrop == old(showCrop) && error == old(error) && location == old(location)
    {
      cropArea := Some(area);
    }

    /** `handleEditCurrent`: reopen the draft in the crop editor; nothing happens without one. */
    method EditCurrent()
      modifies this
      ensures Truthy(old(croppedImage)) ==> imageSrc == old(croppedImage) && showCrop
      ensures !Truthy(old(croppedImage)) ==> imageSrc == old(imageSrc) && showCrop == old(showCrop)
      ensures croppedImage == old(croppedImage) && originalLogo == old(originalLogo)
      ensures cropArea == old(cropArea) && error == old(error) && location == old(location)
    {
      if !Truthy(croppedImage) {
        return;
      }
      imageSrc := croppedImage;
      showCrop := true;
    }

    /** `handleNewUpload`: an image file opens the crop editor on it; anything else is ignored. */
    method NewUpload(files: Option<seq<UploadFile>>)
      modifies this
      ensures PickImage(files).Some? ==> imageSrc == PickImage(files) && showCrop
      ensures PickImage(files).None? ==> imageSrc == old(imageSrc) && showCrop == old(showCrop)
      ensures croppedImage == old(croppedImage) && originalLogo == old(originalLogo)
      ensures cropArea == old(cropArea) && error == old(error) && location == old(location)
    {
      var url := PickImage(files);
      if url.None? {
        return;
      }
      imageSrc := url;
      showCrop := true;
    }

    /**
     * `saveCrop`: with a source and an area, the cropped image (from the
     * `crop` argument, standing for the canvas export) becomes the draft;
     * storage is not touched.
     */
    method SaveCrop(crop: (string, CropArea) -> Option<string>)
      modifies this
      ensures var ok := Truthy(old(imageSrc)) && old(cropArea).Some? &&
                        Truthy(crop(old(imageSrc).value, old(cropArea).value));
        (ok ==> croppedImage == crop(old(imageSrc).value, old(cropArea).value) && !showCrop && error == "") &&
        (!ok ==> croppedImage == old(croppedImage) && showCrop == old(showCrop) && error == old(error))
      ensures imageSrc == old(imageSrc) && originalLogo == old(originalLogo)
      ensures cropArea == old(cropArea) && location == old(location)
      ensures store.items == old(store.items)
    {
      if !Truthy(imageSrc) || cropArea.None? {
        return;
      }
      var cropped := crop(imageSrc.value, cropArea.value);
      if !Truthy(cropped) {
        return;
      }
      croppedImage := cropped;
      showCrop := false;
      error := "";
    }

    /** The crop editor's Cancel button. */
    method CloseCrop()
      modifies this
      ensures !showCrop
      ensures imageSrc == old(imageSrc) && croppedImage == old(croppedImage) && originalLogo == old(originalLogo)
      ensures cropArea == old(cropArea) && error == old(error) && location == old(location)
    {
      showCrop := false;
    }

    /** `handleRemove`: drop the draft and the error; storage keeps the logo. */
    method Remove()
      modifies this
      ensures croppedImage == None && error == ""
      ensures imageSrc == old(imageSrc) && originalLogo == old(originalLogo) && showCrop == old(showCrop)
      ensures cropArea == old(cropArea) && location == old(location)
      ensures store.items == old(store.items)
    {
      croppedImage := None;
      error := "";
    }

    /** `handleSave`: a logo is mandatory; with one, it is committed and the page leaves. */
    method Save()
      modifies this, store
      ensures !Truthy(old(croppedImage)) ==>
        error == AddLogoError && store.items == old(store.items) && location == old(location)
      ensures Truthy(old(croppedImage)) ==>
        store.items == old(store.items)[LogoKey := old(croppedImage).value] &&
        location == Some(DashboardRoute) && error == old(error)
      ensures imageSrc == old(imageSrc) && croppedImage == old(croppedImage) && originalLogo == old(originalLogo)
      ensures showCrop == old(showCrop) && cropArea == old(cropArea)
    {
      if !Truthy(croppedImage) {
        error := AddLogoError;
        return;
      }
      store.SetItem(LogoKey, croppedImage.value);
      location := Some(DashboardRoute);
    }

    /** `handleCancel`: write back the logo found on opening, if any, and leave. */
    method Cancel()
      modifies this, store
      ensures Truthy(originalLogo) ==> store.items == old(store.items)[LogoKey := originalLogo.value]
      ensures !Truthy(originalLogo) ==> store.items == old(store.items)
      ensures location == Some(DashboardRoute)
      ensures imageSrc == old(imageSrc) && croppedImage == old(croppedImage) && originalLogo == old(originalLogo)
      ensures showCrop == old(showCrop) && cropArea == old(cropArea) && error == old(error)
    {
      if Truthy(originalLogo) {
        store.SetItem(LogoKey, originalLogo.value);
      }
      location := Some(DashboardRoute);
    }

    /** The page's buttons and inputs other than Save and Cancel, which leave the page. */
    method Dispatch(action: LogoAction, crop: (string, CropArea) -> Option<string>)
      modifies this
      ensures originalLogo == old(originalLogo) && location == old(location)
      ensures store.items == old(store.items)
    {
      match action {
        case Edit => EditCurrent();
        case Upload(files) => NewUpload(files);
        case CropComplete(area) => OnCropComplete(area);
        case Done => SaveCrop(crop);
        case CloseEditor => CloseCrop();
        case RemoveLogo => Remove();
      }
    }
  }

  datatype LogoAction =
    | Edit
    | Upload(files: Option<seq<UploadFile>>)
    | CropComplete(area: CropArea)
    | Done
    | CloseEditor
    | RemoveLogo

  /**
   * Open the page over any storage, perform any actions short of saving,
   * then cancel: storage is exactly as it was on opening. A stored logo is
   * written back unchanged; without one, nothing is written.
   */
  method CancelRestoresLogo(items: map<string, string>, actions: seq<LogoAction>,
                            crop: (string, CropArea) -> Option<string>)
    returns (after: map<string, string>)
    ensures after == items
  {
    var store := new Storage(items);
    var page := new EditLogoPage(store);
    page.LoadCurrent();
    var i := 0;
    while i < |actions|
      invariant 0 <= i <= |actions|
      invariant page.store == store && store.items == items
      invariant Truthy(page.originalLogo) ==> LogoKey in items && page.originalLogo == Some(items[LogoKey])
    {
      page.Dispatch(actions[i], crop);
      i := i + 1;
    }
    page.Cancel();
    after := store.items;
  }
}
