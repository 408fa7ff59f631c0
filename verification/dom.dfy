/**
  The parts of a DOM change event the pages read, and the preview a page
  shows next to a file input.
 */
module Dom {
  import opened JsValues

  datatype InputKind =
    | TextInput
    | Checkbox(checked: bool)
    | FilePicker(files: seq<FileRef>)

  /** `e.target`: its `name`, its `value`, and what its `type` implies. */
  datatype InputEvent = InputEvent(name: string, value: string, kind: InputKind)

  /** `e.target.files[0]`: the first chosen file, `undefined` when none is chosen. */
  function FirstFile(e: InputEvent): (v: Value)
    requires e.kind.FilePicker?
    ensures v.File? || v.Undefined?
    ensures v.File? <==> |e.kind.files| > 0
  {
    if |e.kind.files| > 0 then File(e.kind.files[0]) else Undefined
  }

  /**
    A preview: nothing, a file the user just chose (read through FileReader
    or an object URL), an image already on the server, or the fixed
    "Current file / Already uploaded" card.
   */
  datatype Preview = NoPreview | LocalFile(file: FileRef) | Remote(src: Value) | Placeholder

  /**
    What a media resolver yields: no source (`null`), a source URL, an
    object URL for a file the user chose, or a TypeError (a string method
    called on something that is not a string).
   */
  datatype MediaSrc = NoMedia | Located(url: Value) | ObjectUrl(file: FileRef) | TypeError
}
