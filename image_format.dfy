/**
 * The image format converter: HEIC detection (by name or MIME type, then
 * by the HEIC library, then by the `ftyp` brand in the first 12 bytes
 * rendered as hex), the output name and MIME type of a conversion, and
 * the byte loop that turns the decoded data URL into the output file.
 * The HEIC library, the canvas encoder and `atob` are passed in.
 */
module ImageFormatConverter {
  import opened Wrappers
  import opened Bytes
  import opened Strings

  /** isHeicFormat's first test: the name's extension or the MIME type, without reading the file. */
  predicate HeicByNameOrType(name: string, mime: string) {
    EndsWith(Lower(name), ".heic") || EndsWith(Lower(name), ".heif") ||
    mime == "image/heic" || mime == "image/heif"
  }

  /* ---- the header rendered as hex ---- */

  /** A lower-case hex digit: '0'..'9', then 'a'..'f'. */
  function HexDigit(d: int): (c: char)
    requires 0 <= d < 16
    ensures '0' <= c <= '9' || 'a' <= c <= 'f'
  {
    if d < 10 then ('0' as int + d) as char else ('a' as int + d - 10) as char
  }

  /** `byte.toString(16)`: one or two lower-case hex digits. */
  function ToHex(b: int): (s: string)
    requires IsByte(b)
    ensures 1 <= |s| <= 2
  {
    if b < 16 then [HexDigit(b)] else [HexDigit(b / 16), HexDigit(b % 16)]
  }

  /** `.padStart(2, "0")` */
  function PadStart2(s: string): (r: string)
    requires |s| <= 2
    ensures |r| == 2
  {
    if |s| == 2 then s else if |s| == 1 then ['0'] + s else "00"
  }

  /** One byte as two hex digits: high nibble, then low nibble. */
  function HexByte(b: int): string
    requires IsByte(b)
  {
    [HexDigit(b / 16), HexDigit(b % 16)]
  }

  /** `byte.toString(16).padStart(2, "0")` is always the two-digit form, a leading '0' included. */
  lemma PaddedToStringIsHexByte(b: int)
    requires IsByte(b)
    ensures PadStart2(ToHex(b)) == HexByte(b)
    ensures b < 16 ==> PadStart2(ToHex(b))[0] == '0'
  {
  }

  /** `Array.from(arr).map(byte => byte.toString(16).padStart(2, "0")).join("")` */
  function Hex(bs: seq<int>): (s: string)
    requires AllBytes(bs)
    ensures |s| == 2 * |bs|
  {
    if |bs| == 0 then "" else HexByte(bs[0]) + Hex(bs[1..])
  }

  function DigitValue(c: char): (v: nat)
    ensures v < 16
  {
    if '0' <= c <= '9' then (c as int - '0' as int)
    else if 'a' <= c <= 'f' then (c as int - 'a' as int + 10)
    else 0
  }

  /** Reading the hex string back, two digits per byte. */
  function Unhex(s: string): (bs: seq<int>)
    requires |s| % 2 == 0
    ensures |bs| == |s| / 2
  {
    if |s| == 0 then [] else [16 * DigitValue(s[0]) + DigitValue(s[1])] + Unhex(s[2..])
  }

  lemma DigitRoundTrip(d: int)
    requires 0 <= d < 16
    ensures DigitValue(HexDigit(d)) == d
  {
  }

  /** The hex header loses nothing: reading it back gives the bytes. */
  lemma {:induction false} UnhexHex(bs: seq<int>)
    requires AllBytes(bs)
    ensures Unhex(Hex(bs)) == bs
  {
    if |bs| > 0 {
      var h := Hex(bs);
      DigitRoundTrip(bs[0] / 16);
      DigitRoundTrip(bs[0] % 16);
      assert h[2..] == Hex(bs[1..]);
      UnhexHex(bs[1..]);
    }
  }

  lemma HexInjective(a: seq<int>, b: seq<int>)
    requires AllBytes(a) && AllBytes(b) && Hex(a) == Hex(b)
    ensures a == b
  {
    UnhexHex(a);
    UnhexHex(b);
  }

  lemma {:induction false} HexConcat(a: seq<int>, b: seq<int>)
    requires AllBytes(a) && AllBytes(b)
    ensures Hex(a + b) == Hex(a) + Hex(b)
  {
    if |a| > 0 {
      assert (a + b)[1..] == a[1..] + b;
      HexConcat(a[1..], b);
    } else {
      assert a + b == b;
    }
  }

  /** The hex of a suffix is the matching suffix of the hex. */
  lemma {:induction false} HexSuffix(bs: seq<int>, i: int)
    requires AllBytes(bs) && 0 <= i <= |bs|
    ensures Hex(bs)[2 * i..] == Hex(bs[i..])
  {
    if i > 0 {
      assert bs[1..][i - 1..] == bs[i..];
      HexSuffix(bs[1..], i - 1);
    }
  }

  /** The hex of a prefix is the matching prefix of the hex. */
  lemma {:induction false} HexPrefix(bs: seq<int>, j: int)
    requires AllBytes(bs) && 0 <= j <= |bs|
    ensures Hex(bs)[..2 * j] == Hex(bs[..j])
  {
    if j > 0 {
      assert bs[1..][..j - 1] == bs[..j][1..];
      HexPrefix(bs[1..], j - 1);
    }
  }

  lemma SliceOfSuffix<T>(s: seq<T>, i: int, j: int)
    requires 0 <= i <= j <= |s|
    ensures s[i..][..j - i] == s[i..j]
  {
  }

  /** Bytes i..j of the header are hex digits 2i..2j. */
  lemma HexSlice(bs: seq<int>, i: int, j: int)
    requires AllBytes(bs) && 0 <= i <= j <= |bs|
    ensures Hex(bs)[2 * i..2 * j] == Hex(bs[i..j])
  {
    HexSuffix(bs, i);
    HexPrefix(bs[i..], j - i);
    SliceOfSuffix(bs, i, j);
    SliceOfSuffix(Hex(bs), 2 * i, 2 * j);
  }

  /** The three signatures the header fallback searches for: "ftyp" followed by "hei", "hej" or "hev". */
  const HeicSignatures: seq<string> := ["66747970686569", "6674797068656a", "66747970686576"]

  /** `file.slice(0, 12)`: at most the first 12 bytes. */
  function HeaderBytes(content: seq<int>): (bs: seq<int>)
    ensures |bs| == if |content| <= 12 then |content| else 12
    ensures bs == content[..|bs|]
  {
    if |content| <= 12 then content else content[..12]
  }

  /** The fallback's verdict as written: a signature anywhere in the hex string. */
  predicate HexHeaderSaysHeic(header: string) {
    exists k :: 0 <= k < |HeicSignatures| && Contains(header, HeicSignatures[k])
  }

  /** What `isHeic(file)` of the HEIC library does: answers, or throws. */
  datatype LibraryOutcome = Answers(isHeic: bool) | Throws

  /**
   * isHeicFormat: the name/MIME test, else the library's answer, else
   * the hex header of the first 12 bytes; `content` is None when reading
   * the file throws.
   */
  function IsHeicFormat(name: string, mime: string, library: LibraryOutcome, content: Option<seq<int>>): (heic: bool)
    requires content.Some? ==> AllBytes(content.value)
    ensures HeicByNameOrType(name, mime) ==> heic
    ensures !HeicByNameOrType(name, mime) && library.Answers? ==> heic == library.isHeic
    ensures !HeicByNameOrType(name, mime) && library.Throws? && content.None? ==> !heic
  {
    if HeicByNameOrType(name, mime) then true
    else match library
      case Answers(b) => b
      case Throws =>
        match content
        case None => false
        case Some(bs) => HexHeaderSaysHeic(Hex(HeaderBytes(bs)))
  }

  /** Digits 2m and 2m + 1 of the hex are byte m's high and low nibble. */
  lemma HexAt(bs: seq<int>, m: int)
    requires AllBytes(bs) && 0 <= m < |bs|
    ensures Hex(bs)[2 * m] == HexDigit(bs[m] / 16) && Hex(bs)[2 * m + 1] == HexDigit(bs[m] % 16)
  {
    HexSuffix(bs, m);
  }

  /**
   * When each byte's low nibble and the next byte's high nibble spell a
   * byte of sig, sig's hex appears from the second digit on.
   */
  lemma ShiftedOccurrence(bs: seq<int>, sig: seq<int>)
    requires AllBytes(bs) && AllBytes(sig) && |sig| < |bs|
    requires forall m :: 0 <= m < |sig| ==> bs[m] % 16 == sig[m] / 16 && bs[m + 1] / 16 == sig[m] % 16
    ensures ContainsAt(Hex(bs), Hex(sig), 1)
  {
    forall t | 0 <= t < 2 * |sig| ensures Hex(bs)[1 + t] == Hex(sig)[t] {
      ShiftedDigit(bs, sig, t);
    }
    ContainsAtByIndex(Hex(bs), Hex(sig), 1);
  }

  /** Digit t of sig's hex: the low nibble of byte t / 2, or the high nibble of the next byte. */
  lemma ShiftedDigit(bs: seq<int>, sig: seq<int>, t: int)
    requires AllBytes(bs) && AllBytes(sig) && 0 <= t < 2 * |sig| && |sig| < |bs|
    requires bs[t / 2] % 16 == sig[t / 2] / 16 && bs[t / 2 + 1] / 16 == sig[t / 2] % 16
    ensures Hex(bs)[1 + t] == Hex(sig)[t]
  {
    var m := t / 2;
    if t % 2 == 0 {
      ShiftedHighDigit(bs, sig, m);
      assert 1 + t == 2 * m + 1 && t == 2 * m;
    } else {
      ShiftedLowDigit(bs, sig, m);
      assert 1 + t == 2 * (m + 1) && t == 2 * m + 1;
    }
  }

  /** Digit 2m of sig's hex, its byte m's high nibble, is byte m's low nibble: digit 2m + 1 of the header. */
  lemma ShiftedHighDigit(bs: seq<int>, sig: seq<int>, m: int)
    requires AllBytes(bs) && AllBytes(sig) && 0 <= m < |sig| < |bs|
    requires bs[m] % 16 == sig[m] / 16
    ensures Hex(bs)[2 * m + 1] == Hex(sig)[2 * m]
  {
    HexAt(sig, m);
    HexAt(bs, m);
  }

  /** Digit 2m + 1 of sig's hex, its byte m's low nibble, is byte m + 1's high nibble: digit 2m + 2 of the header. */
  lemma ShiftedLowDigit(bs: seq<int>, sig: seq<int>, m: int)
    requires AllBytes(bs) && AllBytes(sig) && 0 <= m < |sig| < |bs|
    requires bs[m + 1] / 16 == sig[m] % 16
    ensures Hex(bs)[2 * (m + 1)] == Hex(sig)[2 * m + 1]
  {
    HexAt(sig, m);
    HexAt(bs, m + 1);
  }

  /** Eight bytes without "ftyp" whose hex nonetheless holds the first signature, one digit in. */
  const MisalignedHeader: seq<int> := [0x06, 0x67, 0x47, 0x97, 0x06, 0x86, 0x56, 0x90]

  lemma MisalignedHeaderNibbles()
    ensures AllBytes(MisalignedHeader) && |MisalignedHeader| == 8
    ensures MisalignedHeader[0] != 0x66 && MisalignedHeader[1] != 0x66
    ensures forall m :: 0 <= m < 7 ==>
      MisalignedHeader[m] % 16 == SignatureBytes[0][m] / 16 && MisalignedHeader[m + 1] / 16 == SignatureBytes[0][m] % 16
  {
    assert SignatureBytes[0] == [0x66, 0x74, 0x79, 0x70, 0x68, 0x65, 0x69];
  }

  /** The as-written hex test accepts such a header, which has no signature among its bytes. */
  lemma MisalignedMatch(bs: seq<int>)
    requires AllBytes(bs) && |bs| == 8 && bs[0] != 0x66 && bs[1] != 0x66
    requires forall m :: 0 <= m < 7 ==> bs[m] % 16 == SignatureBytes[0][m] / 16 && bs[m + 1] / 16 == SignatureBytes[0][m] % 16
    ensures HexHeaderSaysHeic(Hex(HeaderBytes(bs))) && !HeaderHasBrand(bs)
  {
    ShiftedOccurrence(bs, SignatureBytes[0]);
    SignatureHex(0);
    ContainsWitness(Hex(bs), HeicSignatures[0], 1);
    forall k, i | 0 <= k < |SignatureBytes| && 0 <= i <= |bs| ensures !ContainsAt(bs, SignatureBytes[k], i) {
      assert SignatureBytes[k][0] == 0x66;
      if i + 7 <= |bs| {
        assert bs[i..i + 7][0] == bs[i];
      }
    }
  }

  /**
   * A file with no "ftyp" box is reported as HEIC once the library
   * throws: the hex digits 66747970686569 appear from the second digit
   * on, straddling bytes.
   */
  lemma MisalignedSignatureMatch(name: string, mime: string)
    requires !HeicByNameOrType(name, mime)
    ensures AllBytes(MisalignedHeader) && !HeaderHasBrand(MisalignedHeader)
    ensures IsHeicFormat(name, mime, Throws, Some(MisalignedHeader))
  {
    MisalignedHeaderNibbles();
    MisalignedMatch(MisalignedHeader);
  }

  /** The same signatures as bytes: 'f' 't' 'y' 'p' 'h' 'e' and one of 'i', 'j', 'v'. */
  const FtypHe: seq<int> := [0x66, 0x74, 0x79, 0x70, 0x68, 0x65]
  const SignatureBytes: seq<seq<int>> := [FtypHe + [0x69], FtypHe + [0x6a], FtypHe + [0x76]]

  /** The intended test: one of the signatures occurs among the bytes themselves. */
  predicate HeaderHasBrand(bs: seq<int>) {
    exists k, i :: 0 <= k < |SignatureBytes| && 0 <= i <= |bs| && ContainsAt(bs, SignatureBytes[k], i)
  }

  /** A byte in front adds its two digits in front. */
  lemma HexCons(b: int, rest: seq<int>)
    requires IsByte(b) && AllBytes(rest)
    ensures Hex([b] + rest) == [HexDigit(b / 16), HexDigit(b % 16)] + Hex(rest)
  {
    assert ([b] + rest)[1..] == rest;
  }

  /** Three bytes in hex, digit by digit. */
  lemma Hex3(a: int, b: int, c: int)
    requires IsByte(a) && IsByte(b) && IsByte(c)
    ensures Hex([a, b, c]) == [HexDigit(a / 16), HexDigit(a % 16), HexDigit(b / 16), HexDigit(b % 16),
                               HexDigit(c / 16), HexDigit(c % 16)]
  {
    HexCons(c, []);
    assert [c] + [] == [c];
    HexCons(b, [c]);
    assert [b] + [c] == [b, c];
    HexCons(a, [b, c]);
    assert [a] + [b, c] == [a, b, c];
  }

  lemma FtyHex()
    ensures Hex([0x66, 0x74, 0x79]) == "667479"
  {
    Hex3(0x66, 0x74, 0x79);
  }

  lemma PheHex()
    ensures Hex([0x70, 0x68, 0x65]) == "706865"
  {
    Hex3(0x70, 0x68, 0x65);
  }

  /** The brand's common prefix "ftyphe" in hex. */
  lemma FtypHex()
    ensures Hex(FtypHe) == "667479706865"
  {
    FtyHex();
    PheHex();
    HexConcat([0x66, 0x74, 0x79], [0x70, 0x68, 0x65]);
    assert [0x66, 0x74, 0x79] + [0x70, 0x68, 0x65] == FtypHe;
  }

  /** "ftyphe" and one more byte in hex. */
  lemma BrandHex(last: int)
    requires IsByte(last)
    ensures Hex(FtypHe + [last]) == "667479706865" + [HexDigit(last / 16), HexDigit(last % 16)]
  {
    FtypHex();
    HexConcat(FtypHe, [last]);
    HexCons(last, []);
    assert [last] + [] == [last];
  }

  /** Each hex signature is the hex of the matching byte signature. */
  lemma SignatureHex(k: int)
    requires 0 <= k < |SignatureBytes|
    ensures AllBytes(SignatureBytes[k]) && Hex(SignatureBytes[k]) == HeicSignatures[k]
  {
    if k == 0 {
      BrandHex(0x69);
    } else if k == 1 {
      BrandHex(0x6a);
    } else {
      BrandHex(0x76);
    }
  }

  lemma HexEqual(a: seq<int>, b: seq<int>)
    requires AllBytes(a) && AllBytes(b)
    ensures Hex(a) == Hex(b) <==> a == b
  {
    if Hex(a) == Hex(b) {
      HexInjective(a, b);
    }
  }

  /** A byte-level occurrence at i is exactly a hex occurrence at the even offset 2i. */
  lemma AlignedOccurrence(bs: seq<int>, sig: seq<int>, i: int)
    requires AllBytes(bs) && AllBytes(sig) && 0 <= i
    ensures ContainsAt(bs, sig, i) <==> ContainsAt(Hex(bs), Hex(sig), 2 * i)
  {
    var j := i + |sig|;
    if j <= |bs| {
      HexSlice(bs, i, j);
      HexEqual(bs[i..j], sig);
    }
  }

  lemma AlignedSignature(bs: seq<int>, k: int, i: int)
    requires AllBytes(bs) && 0 <= k < |SignatureBytes| && 0 <= i
    ensures ContainsAt(bs, SignatureBytes[k], i) <==> ContainsAt(Hex(bs), HeicSignatures[k], 2 * i)
  {
    SignatureHex(k);
    AlignedOccurrence(bs, SignatureBytes[k], i);
  }

  /**
   * The corrected fallback test: the brand is in the bytes exactly when a
   * signature is found at an even hex offset, and such a match is one the
   * as-written test also finds.
   */
  lemma BrandIffAlignedMatch(bs: seq<int>)
    requires AllBytes(bs)
    ensures HeaderHasBrand(bs) <==>
      exists k, i :: 0 <= k < |HeicSignatures| && 0 <= i && ContainsAt(Hex(bs), HeicSignatures[k], 2 * i)
    ensures HeaderHasBrand(bs) ==> HexHeaderSaysHeic(Hex(bs))
  {
    if HeaderHasBrand(bs) {
      var k, i :| 0 <= k < |SignatureBytes| && 0 <= i <= |bs| && ContainsAt(bs, SignatureBytes[k], i);
      AlignedSignature(bs, k, i);
      ContainsWitness(Hex(bs), HeicSignatures[k], 2 * i);
    }
    if exists k, i :: 0 <= k < |HeicSignatures| && 0 <= i && ContainsAt(Hex(bs), HeicSignatures[k], 2 * i) {
      var k, i :| 0 <= k < |HeicSignatures| && 0 <= i && ContainsAt(Hex(bs), HeicSignatures[k], 2 * i);
      AlignedSignature(bs, k, i);
    }
  }

  /** isHeicFormat with the header fallback checking the bytes rather than any hex offset. */
  function IsHeicFormatByBrand(name: string, mime: string, library: LibraryOutcome, content: Option<seq<int>>): (heic: bool)
    requires content.Some? ==> AllBytes(content.value)
    ensures heic ==> IsHeicFormat(name, mime, library, content)
    ensures !HeicByNameOrType(name, mime) && library.Throws? && content.Some? ==>
      (heic <==> HeaderHasBrand(HeaderBytes(content.value)))
    ensures HeicByNameOrType(name, mime) || library.Answers? || content.None? ==>
      heic == IsHeicFormat(name, mime, library, content)
  {
    if HeicByNameOrType(name, mime) then true
    else match library
      case Answers(b) => b
      case Throws =>
        match content
        case None => false
        case Some(bs) =>
          BrandIffAlignedMatch(HeaderBytes(bs));
          HeaderHasBrand(HeaderBytes(bs))
  }

  /* ---- output names and types ---- */

  /** A converted file: name, MIME type and bytes. */
  datatype OutputFile = OutputFile(name: string, mime: string, content: seq<int>)

  predicate HasHeicExtension(name: string) {
    EndsWith(Lower(name), ".heic") || EndsWith(Lower(name), ".heif")
  }

  /** `name.replace(/\.(heic|heif)$/i, "." + format)` */
  function HeicOutputName(name: string, format: string): (r: string)
    ensures HasHeicExtension(name) ==> r == name[..|name| - 5] + "." + format
    ensures !HasHeicExtension(name) ==> r == name
  {
    if HasHeicExtension(name) then name[..|name| - 5] + "." + format else name
  }

  /** convertHeicToFormat: the converted blob (None when heic-to fails) named and typed after the format. */
  function ConvertHeicToFormat(name: string, format: string, converted: Option<seq<int>>): (r: Option<OutputFile>)
    ensures r.None? <==> converted.None?
    ensures r.Some? ==> r.value == OutputFile(HeicOutputName(name, format), "image/" + format, converted.value)
  {
    match converted
    case None => None
    case Some(blob) => Some(OutputFile(HeicOutputName(name, format), "image/" + format, blob))
  }

  /** convertImageFormat's file name: the name up to its last '.', or the whole name, then "." + format. */
  function OutputName(name: string, targetFormat: string): (r: string)
    ensures EndsWith(r, "." + targetFormat)
    ensures '.' !in name ==> r == name + "." + targetFormat
    ensures '.' in name ==> r == name[..LastIndexOf(name, '.').value] + "." + targetFormat
  {
    var baseName := if '.' in name then name[..LastIndexOf(name, '.').value] else name;
    var r := baseName + "." + targetFormat;
    assert r[|r| - |"." + targetFormat|..] == "." + targetFormat;
    r
  }

  /** Renaming twice is renaming once: the second pass strips exactly the extension the first added. */
  lemma OutputNameIdempotent(name: string, targetFormat: string)
    requires '.' !in targetFormat
    ensures OutputName(OutputName(name, targetFormat), targetFormat) == OutputName(name, targetFormat)
  {
    var once := OutputName(name, targetFormat);
    var baseName := if '.' in name then name[..LastIndexOf(name, '.').value] else name;
    assert once == baseName + "." + targetFormat;
    assert once[|baseName|] == '.';
    assert once[|baseName| + 1..] == targetFormat;
    LastIndexOfIs(once, '.', |baseName|);
    assert once[..|baseName|] == baseName;
  }

  /** The last occurrence of c is at k when nothing after k is c. */
  lemma LastIndexOfIs(s: string, c: char, k: int)
    requires 0 <= k < |s| && s[k] == c && c !in s[k + 1..]
    ensures LastIndexOf(s, c) == Some(k)
  {
    var r := LastIndexOf(s, c);
    assert r.Some?;
  }

  /** A name with a HEIC extension gets the same name from both converters. */
  lemma HeicNamesAgree(name: string, format: string)
    requires HasHeicExtension(name)
    ensures HeicOutputName(name, format) == OutputName(name, format)
  {
    var k := |name| - 5;
    var ext := Lower(name)[k..];
    assert ext == ".heic" || ext == ".heif";
    assert ext[0] == '.' && ext[1..] == Lower(name[k + 1..]);
    assert name[k] == '.';
    forall j | k + 1 <= j < |name| ensures name[j] != '.' {
      assert LowerChar(name[j]) == ext[j - k];
    }
    assert '.' !in name[k + 1..];
    LastIndexOfIs(name, '.', k);
  }

  /** One entry of supportedOutputFormats: the id callers pass as the target format, a title, and a MIME type. */
  datatype OutputFormat = OutputFormat(id: string, title: string, mimeType: string)

  const SupportedOutputFormats: seq<OutputFormat> := [
    OutputFormat("jpg", "JPEG (.jpg)", "image/jpeg"),
    OutputFormat("png", "PNG (.png)", "image/png"),
    OutputFormat("webp", "WebP (.webp)", "image/webp"),
    OutputFormat("avif", "AVIF (.avif)", "image/avif")]

  /** convertImageFormat's type as written: "image/" and the target format's id. */
  function TargetMimeType(targetFormat: string): (m: string)
    ensures |m| == 6 + |targetFormat| && m[6..] == targetFormat
  {
    "image/" + targetFormat
  }

  /**
   * Only the JPEG entry is affected: its id yields "image/jpg", not the
   * listed "image/jpeg"; the other three ids yield their listed types.
   */
  lemma JpgTargetMimeDisagrees()
    ensures TargetMimeType(SupportedOutputFormats[0].id) != SupportedOutputFormats[0].mimeType
    ensures forall k :: 1 <= k < |SupportedOutputFormats| ==>
      TargetMimeType(SupportedOutputFormats[k].id) == SupportedOutputFormats[k].mimeType
  {
    assert |TargetMimeType("jpg")| == 9 && |"image/jpeg"| == 10;
  }

  /** The listed ids start with different letters, so no two are equal. */
  lemma ListedIdsDistinct()
    ensures forall j, k :: 0 <= j < k < |SupportedOutputFormats| ==>
      |SupportedOutputFormats[j].id| > 0 && |SupportedOutputFormats[k].id| > 0 &&
      SupportedOutputFormats[j].id[0] != SupportedOutputFormats[k].id[0]
  {
  }

  /** The mimeType of the first entry listing the id. */
  function LookupMimeType(formats: seq<OutputFormat>, id: string): (m: Option<string>)
    ensures m.None? <==> forall k :: 0 <= k < |formats| ==> formats[k].id != id
    ensures m.Some? ==> exists k :: 0 <= k < |formats| && formats[k].id == id && m.value == formats[k].mimeType
  {
    if |formats| == 0 then None
    else if formats[0].id == id then Some(formats[0].mimeType)
    else
      var m := LookupMimeType(formats[1..], id);
      assert forall k :: 1 <= k < |formats| ==> formats[k] == formats[1..][k - 1];
      m
  }

  /** The type from the table when the id is listed, "image/" + id otherwise. */
  function ListedMimeType(targetFormat: string): (m: string)
    ensures forall k :: 0 <= k < |SupportedOutputFormats| && SupportedOutputFormats[k].id == targetFormat ==>
      m == SupportedOutputFormats[k].mimeType
    ensures (forall k :: 0 <= k < |SupportedOutputFormats| ==> SupportedOutputFormats[k].id != targetFormat) ==>
      m == TargetMimeType(targetFormat)
  {
    ListedIdsDistinct();
    match LookupMimeType(SupportedOutputFormats, targetFormat)
    case Some(m) => m
    case None => TargetMimeType(targetFormat)
  }

  /** The listed lookup agrees with the as-written type everywhere but "jpg". */
  lemma ListedMimeTypeFixesOnlyJpg(targetFormat: string)
    ensures targetFormat != "jpg" ==> ListedMimeType(targetFormat) == TargetMimeType(targetFormat)
    ensures targetFormat == "jpg" ==> ListedMimeType(targetFormat) == "image/jpeg"
  {
    JpgTargetMimeDisagrees();
    if targetFormat != "jpg" {
      forall k | 0 <= k < |SupportedOutputFormats| && SupportedOutputFormats[k].id == targetFormat
        ensures SupportedOutputFormats[k].mimeType == TargetMimeType(targetFormat)
      {
        assert k != 0;
      }
    }
  }

  /** No listed id holds a '.', so renaming to any listed format is stable. */
  lemma ListedFormatNamesStable(name: string, k: int)
    requires 0 <= k < |SupportedOutputFormats|
    ensures var f := SupportedOutputFormats[k].id;
      OutputName(OutputName(name, f), f) == OutputName(name, f) && EndsWith(OutputName(name, f), "." + f)
  {
    var f := SupportedOutputFormats[k].id;
    assert '.' !in f;
    OutputNameIdempotent(name, f);
  }

  /* ---- the data URL to bytes ---- */

  /**
   * `new Uint8Array(n)` filled with `binaryString.charCodeAt(i)`: each
   * store keeps the low 8 bits.
   */
  method BinaryStringToBytes(binaryString: string) returns (bytes: array<int>)
    ensures fresh(bytes) && bytes.Length == |binaryString|
    ensures forall i :: 0 <= i < |binaryString| ==> bytes[i] == Wrap256(binaryString[i] as int)
  {
    bytes := new int[|binaryString|];
    var i := 0;
    while i < |binaryString|
      invariant 0 <= i <= |binaryString|
      invariant forall k :: 0 <= k < i ==> bytes[k] == Wrap256(binaryString[k] as int)
    {
      bytes[i] := Wrap256(binaryString[i] as int);
      i := i + 1;
    }
  }

  /** `atob` yields characters below 256, so the bytes are the character codes themselves. */
  lemma BinaryCharsAreBytes(binaryString: string, bytes: seq<int>)
    requires forall i :: 0 <= i < |binaryString| ==> binaryString[i] as int < 256
    requires |bytes| == |binaryString|
    requires forall i :: 0 <= i < |binaryString| ==> bytes[i] == Wrap256(binaryString[i] as int)
    ensures forall i :: 0 <= i < |bytes| ==> bytes[i] == binaryString[i] as int
  {
  }

  /** `outputDataUrl.split(",")[1]`; with no comma it is undefined, which atob reads as "undefined". */
  function DataUrlPayload(dataUrl: string): (payload: string)
    ensures ',' in dataUrl ==> payload == Split(dataUrl, ',')[1]
  {
    var parts := Split(dataUrl, ',');
    if |parts| > 1 then parts[1] else "undefined"
  }

  /**
   * convertImageFormat. HEIC input goes to the HEIC converter; otherwise
   * the canvas's data URL (None when loading or drawing fails) is decoded
   * by `atob` (None when it throws) and stored byte by byte.
   */
  method ConvertImageFormat(
    name: string, mime: string, library: LibraryOutcome, content: Option<seq<int>>,
    targetFormat: string, heicConverted: Option<seq<int>>,
    dataUrl: Option<string>, atob: string -> Option<string>)
    returns (r: Option<OutputFile>)
    requires content.Some? ==> AllBytes(content.value)
    ensures IsHeicFormat(name, mime, library, content) ==> r == ConvertHeicToFormat(name, targetFormat, heicConverted)
    ensures !IsHeicFormat(name, mime, library, content) ==>
      (r.Some? <==> dataUrl.Some? && atob(DataUrlPayload(dataUrl.value)).Some?)
    ensures !IsHeicFormat(name, mime, library, content) && r.Some? ==>
      r.value.name == OutputName(name, targetFormat) && r.value.mime == "image/" + targetFormat &&
      |r.value.content| == |atob(DataUrlPayload(dataUrl.value)).value| &&
      forall i :: 0 <= i < |r.value.content| ==>
        r.value.content[i] == Wrap256(atob(DataUrlPayload(dataUrl.value)).value[i] as int)
  {
    if IsHeicFormat(name, mime, library, content) {
      return ConvertHeicToFormat(name, targetFormat, heicConverted);
    }
    if dataUrl.None? {
      return None;
    }
    var decoded := atob(DataUrlPayload(dataUrl.value));
    if decoded.None? {
      return None;
    }
    var bytes := BinaryStringToBytes(decoded.value);
    var mimeType := TargetMimeType(targetFormat);
    var newFileName := OutputName(name, targetFormat);
    r := Some(OutputFile(newFileName, mimeType, bytes[..]));
  }
}
