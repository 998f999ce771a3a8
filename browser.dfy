/**
 * The browser facilities the owner pages use: `localStorage` as a mutable
 * string-to-string map, JavaScript truthiness of a `string | null`, the
 * first file of an `<input type="file">` change event, and the pixel area
 * the cropper reports.
 */
module Browser {
  import opened Wrappers
  import opened JsStrings

  /** `window.localStorage`. */
  class Storage {
    var items: map<string, string>

    constructor (items: map<string, string>)
      ensures this.items == items
    {
      this.items := items;
    }

    /** `getItem`: null for a missing key. */
    function GetItem(key: string): (r: Option<string>)
      reads this
      ensures r.Some? <==> key in items
      ensures r.Some? ==> r.value == items[key]
    {
      if key in items then Some(items[key]) else None
    }

    method SetItem(key: string, value: string)
      modifies this
      ensures items == old(items)[key := value]
    {
      items := items[key := value];
    }

    method RemoveItem(key: string)
      modifies this
      ensures items == old(items) - {key}
    {
      items := items - {key};
    }
  }

  /** `if (x)` on a `string | null`: null and "" are falsy. */
  predicate Truthy(x: Option<string>)
  {
    x.Some? && x.value != ""
  }

  /** A selected file: its MIME type and the blob URL `URL.createObjectURL` mints for it. */
  datatype UploadFile = UploadFile(mimeType: string, objectUrl: string)

  /** The `croppedAreaPixels` the cropper reports through `onCropComplete`. */
  datatype CropArea = CropArea(x: int, y: int, width: int, height: int)

  /**
   * The upload guard shared by the three image pages: no file list, or a
   * first file whose type does not start with "image/", yields nothing;
   * otherwise the first file's object URL. (An empty file list makes the
   * source throw at `files[0].type` before any state changes, which is the
   * same observable outcome as returning nothing.)
   */
  function PickImage(files: Option<seq<UploadFile>>): (r: Option<string>)
    ensures r.Some? <==> files.Some? && |files.value| > 0 && StartsWith(files.value[0].mimeType, "image/")
    ensures r.Some? ==> r.value == files.value[0].objectUrl
  {
    if files.None? || |files.value| == 0 then None
    else if !StartsWith(files.value[0].mimeType, "image/") then None
    else Some(files.value[0].objectUrl)
  }
}
