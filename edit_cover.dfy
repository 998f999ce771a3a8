/**
 * The cover-photo editor (app/owner/edit-cover/page.tsx). Unlike the logo
 * editor it writes storage as it goes: the uploaded source image is kept
 * under its own key so that a later edit re-crops the source rather than
 * the already cropped cover.
 */
module EditCover {
  import opened Wrappers
  import opened Browser

  const CoverKey := "restaurantCover"
  const CoverOriginalKey := "restaurantCoverOriginal"
  const DashboardRoute := "/owner/dashboard"

  class EditCoverPage {
    /** The image shown in the crop editor. */
    var imageSrc: Option<string>
    /** The cover shown on the page. */
    var croppedCover: Option<string>
    var showCrop: bool
    var cropArea: Option<CropArea>
    /** Where `window.location.href` was sent, if anywhere. */
    var location: Option<string>
    const store: Storage

    constructor (store: Storage)
      ensures this.store == store
      ensures imageSrc == None && croppedCover == None && !showCrop && cropArea == None && location == None
    {
      this.store := store;
      imageSrc := None;
      croppedCover := None;
      showCrop := false;
      cropArea := None;
      location := None;
    }

    /** The mount effect: show the stored cover, if there is one. */
    method Load()
      modifies this
      ensures Truthy(store.GetItem(CoverKey)) ==> croppedCover == store.GetItem(CoverKey)
      ensures !Truthy(store.GetItem(CoverKey)) ==> croppedCover == old(croppedCover)
      ensures imageSrc == old(imageSrc) && showCrop == old(showCrop)
      ensures cropArea == old(cropArea) && location == old(location)
    {
      var savedCover := store.GetItem(CoverKey);
      if Truthy(savedCover) {
        croppedCover := savedCover;
      }
    }

    /** `onCropComplete`: the cropper reports the selected area. */
    method OnCropComplete(area: CropArea)
      modifies this
      ensures cropArea == Some(area)
      ensures imageSrc == old(imageSrc) && croppedCover == old(croppedCover)
      ensures showCrop == old(showCrop) && location == old(location)
    {
      cropArea := Some(area);
    }

    /** `handleCoverUpload`: an image file is stored as the source and opened in the crop editor. */
    method CoverUpload(files: Option<seq<UploadFile>>)
      modifies this, store
      ensures PickImage(files).Some? ==>
        store.items == old(store.items)[CoverOriginalKey := PickImage(files).value] &&
        imageSrc == PickImage(files) && showCrop
      ensures PickImage(files).None? ==>
        store.items == old(store.items) && imageSrc == old(imageSrc) && showCrop == old(showCrop)
      ensures croppedCover == old(croppedCover) && cropArea == old(cropArea) && location == old(location)
    {
      var src := PickImage(files);
      if src.None? {
        return;
      }
      store.SetItem(CoverOriginalKey, src.value);
      imageSrc := src;
      showCrop := true;
    }

    /** `handleEditCurrent`: reopen the stored source if there is one, otherwise the cover shown. */
    method EditCurrent()
      modifies this
      ensures Truthy(store.GetItem(CoverOriginalKey)) ==>
        imageSrc == store.GetItem(CoverOriginalKey) && showCrop
      ensures !Truthy(store.GetItem(CoverOriginalKey)) && Truthy(old(croppedCover)) ==>
        imageSrc == old(croppedCover) && showCrop
      ensures !Truthy(store.GetItem(CoverOriginalKey)) && !Truthy(old(croppedCover)) ==>
        imageSrc == old(imageSrc) && showCrop == old(showCrop)
      ensures croppedCover == old(croppedCover) && cropArea == old(cropArea) && location == old(location)
    {
      var original := store.GetItem(CoverOriginalKey);
      if Truthy(original) {
        imageSrc := original;
        showCrop := true;
        return;
      }
      if Truthy(croppedCover) {
        imageSrc := croppedCover;
        showCrop := true;
      }
    }

    /** `handleRemove`: forget the cover and its source, on the page and in storage. */
    method Remove()
      modifies this, store
      ensures store.items == old(store.items) - {CoverKey, CoverOriginalKey}
      ensures croppedCover == None && imageSrc == None
      ensures showCrop == old(showCrop) && cropArea == old(cropArea) && location == old(location)
    {
      store.RemoveItem(CoverKey);
      store.RemoveItem(CoverOriginalKey);
      croppedCover := None;
      imageSrc := None;
    }

    /**
     * `saveCrop`: with an area and a source, the cropped image (from `crop`,
     * standing for the canvas export) becomes the cover and is stored
     * together with the source it was cut from.
     */
    method SaveCrop(crop: (string, CropArea) -> Option<string>)
      modifies this, store
      ensures var ok := old(cropArea).Some? && Truthy(old(imageSrc)) &&
                        Truthy(crop(old(imageSrc).value, old(cropArea).value));
        (ok ==>
          croppedCover == crop(old(imageSrc).value, old(cropArea).value) && !showCrop &&
          store.items == old(store.items)[CoverKey := croppedCover.value][CoverOriginalKey := old(imageSrc).value]) &&
        (!ok ==>
          croppedCover == old(croppedCover) && showCrop == old(showCrop) && store.items == old(store.items))
      ensures imageSrc == old(imageSrc) && cropArea == old(cropArea) && location == old(location)
    {
      if cropArea.None? || !Truthy(imageSrc) {
        return;
      }
      var cropped := crop(imageSrc.value, cropArea.value);
      if !Truthy(cropped) {
        return;
      }
      croppedCover := cropped;
      store.SetItem(CoverKey, cropped.value);
      store.SetItem(CoverOriginalKey, imageSrc.value);
      showCrop := false;
    }

    /** The crop editor's Cancel button. */
    method CloseCrop()
      modifies this
      ensures !showCrop
      ensures imageSrc == old(imageSrc) && croppedCover == old(croppedCover)
      ensures cropArea == old(cropArea) && location == old(location)
    {
      showCrop := false;
    }

    /** `handleSubmit`: the cover is optional, so the page always leaves; storage is already up to date. */
    method Submit()
      modifies this
      ensures location == Some(DashboardRoute)
      ensures imageSrc == old(imageSrc) && croppedCover == old(croppedCover)
      ensures showCrop == old(showCrop) && cropArea == old(cropArea)
      ensures store.items == old(store.items)
    {
      location := Some(DashboardRoute);
    }

    /** `handleCancel`: leaves without undoing anything already stored. */
    method Cancel()
      modifies this
      ensures location == Some(DashboardRoute)
      ensures imageSrc == old(imageSrc) && croppedCover == old(croppedCover)
      ensures showCrop == old(showCrop) && cropArea == old(cropArea)
      ensures store.items == old(store.items)
    {
      location := Some(DashboardRoute);
    }
  }

  /**
   * Upload an image, crop it, close the editor and press Edit: the editor
   * reopens on the uploaded source, not on the cropped cover, and storage
   * holds both under their keys.
   */
  method ReEditUsesSource(items: map<string, string>, files: Option<seq<UploadFile>>, area: CropArea,
                          crop: (string, CropArea) -> Option<string>)
    returns (reopened: Option<string>, stored: map<string, string>)
    requires Truthy(PickImage(files))
    requires Truthy(crop(PickImage(files).value, area))
    ensures reopened == PickImage(files)
    ensures stored == items[CoverKey := crop(PickImage(files).value, area).value][CoverOriginalKey := PickImage(files).value]
  {
    var store := new Storage(items);
    var page := new EditCoverPage(store);
    page.Load();
    page.CoverUpload(files);
    page.OnCropComplete(area);
    page.SaveCrop(crop);
    page.CloseCrop();
    page.EditCurrent();
    reopened := page.imageSrc;
    stored := store.items;
  }

  /** After Remove, Edit has nothing to reopen: neither key is stored and no cover is shown. */
  method RemoveThenEditIsInert(items: map<string, string>)
    returns (editorOpen: bool, stored: map<string, string>)
    ensures !editorOpen
    ensures CoverKey !in stored && CoverOriginalKey !in stored
  {
    var store := new Storage(items);
    var page := new EditCoverPage(store);
    page.Load();
    page.Remove();
    page.EditCurrent();
    editorOpen := page.showCrop;
    stored := store.items;
  }
}
