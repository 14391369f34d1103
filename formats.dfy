/**
 * The two pure decisions of the pixcisrc element: which board format
 * configuration `start` accepts, and which GStreamer pixel format
 * `get_caps` derives from the board's component count and bit depth.
 */
module PixciFormats {
  import opened CTypes

  /** Why `start` refuses the format configuration before opening XCLIB. */
  datatype ConfigError =
    | BothFormatsGiven
    | NoFormatGiven
    | FormatFileMissing(path: string)

  /**
   * The checks `start` makes on `format-name` and `format-file`, in the
   * order it makes them. A C string is non-empty exactly when `strlen` is
   * non-zero; `fileExists` stands for `g_file_test (…, G_FILE_TEST_EXISTS)`.
   */
  function CheckFormatSpec(formatName: string, formatFile: string, fileExists: string -> bool): (r: Option<ConfigError>)
    ensures r == None <==>
              (formatName == [] <==> formatFile != []) && (formatFile != [] ==> fileExists(formatFile))
    ensures r == Some(BothFormatsGiven) <==> formatName != [] && formatFile != []
    ensures r == Some(NoFormatGiven) <==> formatName == [] && formatFile == []
    ensures r.Some? && r.value.FormatFileMissing? <==>
              formatName == [] && formatFile != [] && !fileExists(formatFile)
    ensures r.Some? && r.value.FormatFileMissing? ==> r.value.path == formatFile
  {
    if formatName != [] && formatFile != [] then Some(BothFormatsGiven)
    else if formatName == [] && formatFile == [] then Some(NoFormatGiven)
    else if formatFile != [] && !fileExists(formatFile) then Some(FormatFileMissing(formatFile))
    else None
  }

  /** The host's byte order, G_BYTE_ORDER. */
  datatype ByteOrder = LittleEndian | BigEndian

  /** The raw formats `get_caps` can produce; GRAY16 also carries the caps field `bpp`. */
  datatype PixelFormat =
    | Gray8
    | Gray16(order: ByteOrder, bpp: int)

  /** The name GStreamer gives the format in caps. */
  function CapsFormatName(f: PixelFormat): string
  {
    match f
    case Gray8 => "GRAY8"
    case Gray16(LittleEndian, _) => "GRAY16_LE"
    case Gray16(BigEndian, _) => "GRAY16_BE"
  }

  /** The raw video formats listed in the element's source pad template. */
  const TEMPLATE_FORMATS: seq<string> := ["GRAY8", "GRAY16_LE", "GRAY16_BE", "RGB", "xRGB", "RGB_15", "RGB_16"]

  /**
   * The format chosen for an open board: one component of at most 8 bits is
   * GRAY8, one component of 9 to 16 bits is GRAY16 in host byte order tagged
   * with the real bit depth, anything else is unsupported (None).
   */
  function SelectPixelFormat(components: int, bitsPerComponent: int, host: ByteOrder): (r: Option<PixelFormat>)
    ensures r.Some? <==> components == 1 && bitsPerComponent <= 16
    ensures r == Some(Gray8) <==> components == 1 && bitsPerComponent <= 8
    ensures r.Some? && r.value.Gray16? ==> 8 < bitsPerComponent && r.value == Gray16(host, bitsPerComponent)
    ensures r.Some? ==> CapsFormatName(r.value) in TEMPLATE_FORMATS
  {
    if components == 1 && bitsPerComponent <= 8 then Some(Gray8)
    else if components == 1 && 8 < bitsPerComponent <= 16 then Some(Gray16(host, bitsPerComponent))
    else None
  }
}
