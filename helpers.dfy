/** The pure parts of `src/lib/helpers.js`: the validation guards of `saveImage`, the shape of the
    file name it generates, and `getImageUrl`. Writing the file is left to the file store. */
module Helpers {
  import opened Common

  /** `5 * 1024 * 1024`: the largest accepted upload, in bytes. */
  const MaxImageSize: nat := 5 * 1024 * 1024

  const UploadsPrefix: string := "/uploads/"

  /** A multipart form value: a file, with its client-side name, its MIME type and its size in
      bytes, or a plain text field sent under the same name. */
  datatype FormPart = FilePart(name: string, mimeType: string, size: nat) | TextPart(text: string)

  /** JavaScript truthiness of `formData.get(...)`: the part is present and is not an empty text. */
  predicate PartGiven(part: Option<FormPart>)
  {
    part.Some? && part.value != TextPart([])
  }

  /** The part is a file with at least one byte. */
  predicate NonEmptyFile(part: Option<FormPart>)
  {
    part.Some? && part.value.FilePart? && part.value.size != 0
  }

  /** What `saveImage` does: returns null, returns the stored file name, or throws a message. */
  datatype SaveOutcome = NoImage | Saved(filename: string) | Invalid(message: string)

  const NotAnImage: string := "File must be an image."
  const TooLarge: string := "File size must be less than 5MB."
  /** The `TypeError` thrown when a text, which has no `type`, reaches `startsWith`, in the
      wording of the V8 engine. */
  const TextPartError: string := "Cannot read properties of undefined (reading 'startsWith')"

  /** `name.split('.').pop()`: the text after the last dot, or the whole name without a dot. */
  function FileExtension(name: string): (r: string)
    ensures '.' !in r
    ensures |r| <= |name| && name[|name| - |r|..] == r
    ensures |r| < |name| ==> name[|name| - |r| - 1] == '.'
    ensures |r| == |name| <==> '.' !in name
  {
    if name == [] then []
    else if name[|name| - 1] == '.' then []
    else
      var init := name[..|name| - 1];
      var r := FileExtension(init);
      assert name == init + [name[|name| - 1]];
      r + [name[|name| - 1]]
  }

  /** `img_${timestamp}_${random}`: the part of the generated name before the extension. */
  function ImageStem(timestamp: nat, random: string): string
  {
    "img_" + (NatToString(timestamp) + "_" + random)
  }

  /** `img_${timestamp}_${random}.${extension}`; the clock and the random text are inputs. */
  function ImageFileName(timestamp: nat, random: string, name: string): string
  {
    ImageStem(timestamp, random) + ("." + FileExtension(name))
  }

  /** The generated name starts with `img_` and ends with a dot and the original extension. */
  lemma ImageFileNameShape(timestamp: nat, random: string, name: string)
    ensures StartsWith(ImageFileName(timestamp, random, name), "img_")
    ensures var f, e := ImageFileName(timestamp, random, name), FileExtension(name);
      |e| + 1 <= |f| && f[|f| - |e| - 1..] == "." + e
  {
    var stem := ImageStem(timestamp, random);
    var e := FileExtension(name);
    PrefixOfConcat("img_", NatToString(timestamp) + "_" + random);
    PrefixOfConcat(stem, "." + e);
    StartsWithTransitive(stem + ("." + e), stem, "img_");
    SuffixOfConcat(stem, "." + e);
  }

  /** The guards of `saveImage` in their order: no part, an empty text or an empty file gives null
      before any check; a text has no `type`, so reading it throws a `TypeError`; then the type
      must start with `image/`; then the size must not exceed 5 MiB. */
  function SaveImage(part: Option<FormPart>, timestamp: nat, random: string): (r: SaveOutcome)
    ensures r == NoImage <==> !PartGiven(part) || (part.value.FilePart? && part.value.size == 0)
    ensures r == Invalid(TextPartError) <==> PartGiven(part) && part.value.TextPart?
    ensures r == Invalid(NotAnImage) <==> NonEmptyFile(part) && !StartsWith(part.value.mimeType, "image/")
    ensures r == Invalid(TooLarge) <==>
      NonEmptyFile(part) && StartsWith(part.value.mimeType, "image/") && part.value.size > MaxImageSize
    ensures r.Saved? <==>
      NonEmptyFile(part) && part.value.size <= MaxImageSize && StartsWith(part.value.mimeType, "image/")
    ensures r.Saved? ==> r.filename == ImageFileName(timestamp, random, part.value.name)
  {
    if !PartGiven(part) || (part.value.FilePart? && part.value.size == 0) then NoImage
    else if part.value.TextPart? then Invalid(TextPartError)
    else if !StartsWith(part.value.mimeType, "image/") then Invalid(NotAnImage)
    else if part.value.size > MaxImageSize then Invalid(TooLarge)
    else Saved(ImageFileName(timestamp, random, part.value.name))
  }

  /** The value a route stores after `saveImage`: the new file name, or null. */
  function StoredName(o: SaveOutcome): Option<string>
  {
    if o.Saved? then Some(o.filename) else None
  }

  /** `getImageUrl`: null for a missing or empty name, otherwise the public path; stripping
      the prefix gives the stored name back. */
  function GetImageUrl(filename: Option<string>): (r: Option<string>)
    ensures r.None? <==> !Truthy(filename)
    ensures r.Some? ==> StartsWith(r.value, UploadsPrefix) && r.value[|UploadsPrefix|..] == filename.value
  {
    if !Truthy(filename) then None else Some(UploadsPrefix + filename.value)
  }

  /** Once `saveImage` has not thrown, the stored picture has a URL exactly when a non-empty file
      was sent, and that URL is the uploads path of the generated name. */
  lemma StoredImageUrl(file: Option<FormPart>, timestamp: nat, random: string)
    ensures var o := SaveImage(file, timestamp, random);
      o.Saved? ==> GetImageUrl(StoredName(o)) == Some(UploadsPrefix + o.filename)
    ensures var o := SaveImage(file, timestamp, random);
      !o.Invalid? ==> (GetImageUrl(StoredName(o)).Some? <==> NonEmptyFile(file))
  {
    if file.Some? && file.value.FilePart? {
      ImageFileNameShape(timestamp, random, file.value.name);
    }
  }
}
