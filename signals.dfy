/**
 * The `pre_save` hook on item images: a HEIC/HEIF upload is decoded, flattened to RGB,
 * re-encoded as JPEG and stored under a ".jpg" name before the row is written. Every
 * failure along the way leaves the original file in place.
 */
module Signals {

  import opened Wrappers
  import opened Text
  import opened Files
  import opened Imaging
  import PosixPath

  /** `is_heic_file`: the name ends in ".heic" or ".heif", in any case. */
  function IsHeicFile(filename: Option<string>): bool {
    match filename
    case None => false
    case Some(name) =>
      if name == "" then false
      else
        var lowered := Lower(name);
        EndsWith(lowered, ".heic") || EndsWith(lowered, ".heif")
  }

  /** False for `None` and ""; otherwise decided by the lower-cased last five characters. */
  lemma IsHeicFileMeans(filename: Option<string>)
    ensures filename == None || filename == Some("") ==> !IsHeicFile(filename)
    ensures IsHeicFile(filename) <==>
      filename.Some? && |filename.value| >= 5 && Lower(filename.value[|filename.value| - 5..]) in {".heic", ".heif"}
  {
    if filename.Some? && |filename.value| >= 5 {
      var name := filename.value;
      assert name == name[..|name| - 5] + name[|name| - 5..];
      LowerConcat(name[..|name| - 5], name[|name| - 5..]);
      var tail := Lower(name)[|name| - 5..];
      assert tail == Lower(name[|name| - 5..]);
      assert IsHeicFile(filename) <==> tail == ".heic" || tail == ".heif";
    }
  }

  /** Case does not matter: names that lower-case alike are judged alike. */
  lemma HeicIgnoresCase(s: string, t: string)
    requires Lower(s) == Lower(t)
    ensures IsHeicFile(Some(s)) == IsHeicFile(Some(t))
  {
    assert |s| == |t|;
    if |s| >= 5 {
      assert s == s[..|s| - 5] + s[|s| - 5..];
      assert t == t[..|t| - 5] + t[|t| - 5..];
      LowerConcat(s[..|s| - 5], s[|s| - 5..]);
      LowerConcat(t[..|t| - 5], t[|t| - 5..]);
      assert Lower(s[|s| - 5..]) == Lower(s)[|s| - 5..];
      assert Lower(t[|t| - 5..]) == Lower(t)[|t| - 5..];
    }
  }

  /** A ".jpg" name is never taken for HEIC. */
  lemma JpegNameIsNotHeic(s: string)
    requires EndsWith(s, ".jpg")
    ensures !IsHeicFile(Some(s))
  {
    if |s| >= 5 {
      var tail := Lower(s[|s| - 5..]);
      assert tail[4] == LowerChar(s[|s| - 1]) == LowerChar(".jpg"[3]) == 'g';
    }
  }

  /** `os.path.splitext(filename)[0] + ".jpg"` */
  function ConvertedName(filename: string): string {
    PosixPath.SplitExt(filename).0 + ".jpg"
  }

  /** The new name is a JPEG name, so the hook leaves it alone the next time. */
  lemma ConvertedNameIsJpeg(filename: string)
    ensures EndsWith(ConvertedName(filename), ".jpg")
    ensures !IsHeicFile(Some(ConvertedName(filename)))
  {
    JpegNameIsNotHeic(ConvertedName(filename));
  }

  /** The last component of `name`, before its final five characters, has a character other than '.'. */
  ghost predicate StemHasName(name: string)
    requires |name| >= 5
  {
    exists k :: 0 <= k < |name| - 5 && name[k] != '.' && forall j :: k <= j < |name| - 5 ==> name[j] != '/'
  }

  /** A HEIC name ends in a dot and four characters that are neither dots nor separators. */
  lemma HeicTail(name: string)
    requires IsHeicFile(Some(name))
    ensures |name| >= 5 && name[|name| - 5] == '.'
    ensures forall j :: |name| - 5 < j < |name| ==> name[j] != '.' && name[j] != '/'
  {
    IsHeicFileMeans(Some(name));
    var i := |name| - 5;
    var tail := Lower(name[i..]);
    assert tail[0] == '.' && tail[1] == 'h' && tail[2] == 'e' && tail[3] == 'i';
    assert tail[4] == 'c' || tail[4] == 'f';
    assert tail[0] == LowerChar(name[i]);
    forall j | i < j < |name| ensures name[j] != '.' && name[j] != '/' {
      assert tail[j - i] == LowerChar(name[j]);
    }
  }

  /**
   * Only the final extension is replaced: "IMG_001.HEIC" becomes "IMG_001.jpg". When the
   * suffix is all the last component has besides dots (".heic"), `splitext` finds no
   * extension and ".jpg" is appended instead.
   */
  lemma ConvertedNameOfHeic(name: string)
    requires IsHeicFile(Some(name))
    ensures StemHasName(name) ==> ConvertedName(name) == name[..|name| - 5] + ".jpg"
    ensures !StemHasName(name) ==> ConvertedName(name) == name + ".jpg"
  {
    var i := |name| - 5;
    HeicTail(name);
    PosixPath.SplitExtAtExtension(name);
    if StemHasName(name) {
      assert PosixPath.ExtensionAt(name, i);
    } else {
      assert !exists e :: PosixPath.ExtensionAt(name, e);
    }
  }

  /** `ConvertedName("IMG_001.HEIC")` */
  lemma ConvertedNameExample()
    ensures ConvertedName("IMG_001.HEIC") == "IMG_001.jpg"
  {
    PosixPath.SplitExtExample();
  }

  /**
   * The colour policy before JPEG encoding. Images with alpha or a palette are pasted on
   * a white RGB canvas of the same size; a palette image is first converted to RGBA; the
   * alpha band is the paste mask only when the pasted image is RGBA, so an LA image is
   * pasted without one. Any other mode but RGB is converted to RGB; RGB is left alone.
   */
  function ToRgb(img: Image): (r: Image)
    ensures ModeOf(r) == RGB && SizeOf(r) == SizeOf(img)
    ensures ModeOf(img) == RGB ==> r == img
    ensures ModeOf(img).OtherMode? ==> r == Converted(img, RGB)
    ensures ModeOf(img) in {RGBA, LA, P} ==>
      && r.Pasted?
      && r.base == Canvas(RGB, SizeOf(img), White)
      && r.layer == (if ModeOf(img) == P then Converted(img, RGBA) else img)
      && (r.mask.Some? <==> ModeOf(r.layer) == RGBA)
      && (r.mask.Some? ==> r.mask.value == Band(r.layer, 3))
  {
    if ModeOf(img) in {RGBA, LA, P} then
      var layer := if ModeOf(img) == P then Converted(img, RGBA) else img;
      Pasted(Canvas(RGB, SizeOf(img), White), layer,
             if ModeOf(layer) == RGBA then Some(Band(layer, 3)) else None)
    else if ModeOf(img) != RGB then
      Converted(img, RGB)
    else
      img
  }

  /**
   * What the hook calls but does not define, each `None` where the call raises:
   * `open` is `Image.open` on the bytes (the decoded mode and size), `saveJpeg` is the
   * JPEG encoder, `store` is `FieldFile.save` (the name the storage actually used).
   */
  datatype Codec = Codec(
    open: seq<byte> -> Option<(Mode, Size)>,
    saveJpeg: (Image, JpegOptions) -> Option<seq<byte>>,
    store: (string, seq<byte>) -> Option<string>)

  /** The file the hook leaves in the field, given the file it found there. */
  function Normalised(heifAvailable: bool, file: FieldFile, codec: Codec): FieldFile {
    if !heifAvailable || !IsSet(file) || !IsHeicFile(Some(file.name)) then file
    else match file.stream
      case None => file
      case Some(content) =>
        match codec.open(content)
        case None => file
        case Some(decoded) =>
          match codec.saveJpeg(ToRgb(Opened(decoded.0, decoded.1, content)), HeicJpegOptions)
          case None => file
          case Some(output) =>
            match codec.store(ConvertedName(file.name), output)
            case None => file
            case Some(stored) => FieldFile(stored, Some(output))
  }

  /**
   * The gates and the failures keep the file: no HEIF support, an empty field, a name that
   * is not HEIC, an unreadable file, one that does not decode, or one whose RGB image the
   * JPEG encoder refuses; a changed file has content and came from a successful encode.
   */
  lemma NormalisedKeeps(heifAvailable: bool, file: FieldFile, codec: Codec)
    ensures var r := Normalised(heifAvailable, file, codec);
      && (!heifAvailable || !IsSet(file) || !IsHeicFile(Some(file.name)) ==> r == file)
      && (file.stream.None? ==> r == file)
      && (file.stream.Some? && codec.open(file.stream.value).None? ==> r == file)
      && (file.stream.Some? && codec.open(file.stream.value).Some? &&
          codec.saveJpeg(ToRgb(Opened(codec.open(file.stream.value).value.0,
                                      codec.open(file.stream.value).value.1,
                                      file.stream.value)), HeicJpegOptions).None?
          ==> r == file)
      && (r != file ==> r.stream.Some? && codec.open(file.stream.value).Some?)
  {
  }

  /**
   * A changed file is the JPEG encoding (quality 95, optimised) of the decoded image
   * after the colour policy, stored under the rewritten name; and when every step
   * succeeds the field does take that file.
   */
  lemma NormalisedConverts(heifAvailable: bool, file: FieldFile, codec: Codec)
    ensures var r := Normalised(heifAvailable, file, codec);
      r != file ==>
        && heifAvailable && IsHeicFile(Some(file.name)) && file.stream.Some?
        && codec.open(file.stream.value).Some?
        && var (mode, size) := codec.open(file.stream.value).value;
           var img := ToRgb(Opened(mode, size, file.stream.value));
           ModeOf(img) == RGB && SizeOf(img) == size
           && codec.saveJpeg(img, HeicJpegOptions) == r.stream
           && codec.store(ConvertedName(file.name), r.stream.value) == Some(r.name)
    ensures heifAvailable && IsHeicFile(Some(file.name)) && file.stream.Some?
      && codec.open(file.stream.value).Some?
      && codec.saveJpeg(ToRgb(Opened(codec.open(file.stream.value).value.0,
                                     codec.open(file.stream.value).value.1,
                                     file.stream.value)), HeicJpegOptions).Some?
      ==> var output := codec.saveJpeg(ToRgb(Opened(codec.open(file.stream.value).value.0,
                                                    codec.open(file.stream.value).value.1,
                                                    file.stream.value)), HeicJpegOptions).value;
          match codec.store(ConvertedName(file.name), output)
          case None => Normalised(heifAvailable, file, codec) == file
          case Some(stored) => Normalised(heifAvailable, file, codec) == FieldFile(stored, Some(output))
  {
  }

  /** The storage keeps a ".jpg" name a ".jpg" name (it may add a directory or a suffix before the extension). */
  ghost predicate StoreKeepsJpeg(codec: Codec) {
    forall n, d :: EndsWith(n, ".jpg") && codec.store(n, d).Some? ==> EndsWith(codec.store(n, d).value, ".jpg")
  }

  /** Running the hook on its own output changes nothing. */
  lemma NormalisedIdempotent(heifAvailable: bool, file: FieldFile, codec: Codec)
    requires StoreKeepsJpeg(codec)
    ensures Normalised(heifAvailable, Normalised(heifAvailable, file, codec), codec)
         == Normalised(heifAvailable, file, codec)
  {
    var r := Normalised(heifAvailable, file, codec);
    if r != file {
      NormalisedConverts(heifAvailable, file, codec);
      ConvertedNameIsJpeg(file.name);
      JpegNameIsNotHeic(r.name);
    }
  }

  /** The `ItemImage` instance being saved; the hook may replace its file. */
  class PendingImage {
    var item: nat
    var image: FieldFile

    constructor (item: nat, image: FieldFile)
      ensures this.item == item && this.image == image
    {
      this.item := item;
      this.image := image;
    }
  }

  /** The hook's colour block: flatten transparency onto white, convert other modes to RGB. */
  method ApplyColourPolicy(original: Image) returns (img: Image)
    ensures img == ToRgb(original)
  {
    img := original;
    if ModeOf(img) in {RGBA, LA, P} {
      var rgbImg := Canvas(RGB, SizeOf(img), White);
      if ModeOf(img) == P {
        img := Converted(img, RGBA);
      }
      rgbImg := Pasted(rgbImg, img, if ModeOf(img) == RGBA then Some(Band(img, 3)) else None);
      img := rgbImg;
    } else if ModeOf(img) != RGB {
      img := Converted(img, RGB);
    }
  }

  /** `convert_heic_image`, run by `pre_save` for every `ItemImage` save. */
  method ConvertHeicImage(instance: PendingImage, heifAvailable: bool, codec: Codec)
    modifies instance`image
    ensures instance.image == Normalised(heifAvailable, old(instance.image), codec)
  {
    if !heifAvailable {
      return;
    }
    if !IsSet(instance.image) {
      return;
    }
    var imageField := instance.image;
    var filename := imageField.name;
    if !IsHeicFile(Some(filename)) {
      return;
    }
    // Within the `try`: each `None` is an exception, caught, and the file is kept.
    if imageField.stream.None? {
      return;
    }
    var fileContent := imageField.stream.value;
    var decoded := codec.open(fileContent);
    if decoded.None? {
      return;
    }
    var img := Opened(decoded.value.0, decoded.value.1, fileContent);
    img := ApplyColourPolicy(img);
    var output := codec.saveJpeg(img, HeicJpegOptions);
    if output.None? {
      return;
    }
    var baseName := PosixPath.SplitExt(filename).0;
    var newFilename := baseName + ".jpg";
    var stored := codec.store(newFilename, output.value);
    if stored.None? {
      return;
    }
    instance.image := FieldFile(stored.value, Some(output.value));
  }
}
