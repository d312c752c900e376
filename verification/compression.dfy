/** Compression handling around the input and output streams: recognising a
    compressed input by its first two bytes, and choosing the output format. */
module Compression {

  newtype byte = x: int | 0 <= x < 256

  /** The supported formats. The first three carry their magic number as
      enum value; `No` is an uncompressed stream. */
  datatype CompressionFormat = Gzip | Bzip | Lzma | No

  /** The enum value the source gives each compressed format: its magic
      number (for LZMA, the first five bytes of the xz header). */
  function Magic(f: CompressionFormat): nat
    requires f != No
  {
    match f
    case Gzip => 0x1F8B
    case Bzip => 0x425A
    case Lzma => 0xFD377A585A
  }

  /** Big-endian bytes of `n`, without leading zero bytes. */
  function BigEndian(n: nat): (bs: seq<byte>)
    ensures n > 0 ==> |bs| > 0 && bs[0] != 0
    decreases n
  {
    if n == 0 then [] else BigEndian(n / 256) + [(n % 256) as byte]
  }

  /** The format of a stream, judged from its first two bytes only. */
  function GetCompression(stream: seq<byte>): (f: CompressionFormat)
    requires |stream| >= 2
    ensures f == Gzip <==> stream[0] == 0x1F && stream[1] == 0x8B
    ensures f == Bzip <==> stream[0] == 0x42 && stream[1] == 0x5A
    ensures f == Lzma <==> stream[0] == 0xFD && stream[1] == 0x37
  {
    var pair := (stream[0], stream[1]);
    match pair
    case (0x1F, 0x8B) => Gzip
    case (0x42, 0x5A) => Bzip
    case (0xFD, 0x37) => Lzma
    case _ => No
  }

  /** Only the first two bytes are inspected. */
  lemma GetCompressionLooksAtTwoBytes(a: seq<byte>, b: seq<byte>)
    requires |a| >= 2 && |b| >= 2 && a[..2] == b[..2]
    ensures GetCompression(a) == GetCompression(b)
  {
  }

  /** A stream that starts with a format's magic number is recognised as that
      format; the sniffed pair is the leading two bytes of the enum value. */
  lemma MagicIsRecognised(f: CompressionFormat, rest: seq<byte>)
    requires f != No
    ensures |BigEndian(Magic(f))| >= 2
    ensures GetCompression(BigEndian(Magic(f)) + rest) == f
  {
    match f
    case Gzip =>
      assert BigEndian(0x1F8B) == [0x1F, 0x8B] by {
        assert BigEndian(0x1F) == BigEndian(0) + [0x1F];
      }
    case Bzip =>
      assert BigEndian(0x425A) == [0x42, 0x5A] by {
        assert BigEndian(0x42) == BigEndian(0) + [0x42];
      }
    case Lzma =>
      assert BigEndian(0xFD377A585A) == [0xFD, 0x37, 0x7A, 0x58, 0x5A] by {
        assert BigEndian(0xFD) == BigEndian(0) + [0xFD];
      }
  }

  /** The format of an input: standard input ("-") is never sniffed and
      counts as uncompressed; a file is judged from its first two bytes. */
  function GetInput(inputName: string, content: seq<byte>): (f: CompressionFormat)
    requires inputName != "-" ==> |content| >= 2
    ensures inputName == "-" ==> f == No
    ensures inputName != "-" ==> f == GetCompression(content)
  {
    if inputName == "-" then No else GetCompression(content)
  }

  /** The output format: the input's when the user set none, otherwise the
      one the user named, with any unknown name meaning no compression. */
  function ChooseCompression(inputCompression: CompressionFormat, compressionSet: bool,
                             compressionValue: string): (f: CompressionFormat)
    ensures !compressionSet ==> f == inputCompression
    ensures compressionSet ==> (f == Gzip <==> compressionValue == "gzip")
    ensures compressionSet ==> (f == Bzip <==> compressionValue == "bzip")
    ensures compressionSet ==> (f == Lzma <==> compressionValue == "lzma")
  {
    if !compressionSet then inputCompression
    else if compressionValue == "gzip" then Gzip
    else if compressionValue == "bzip" then Bzip
    else if compressionValue == "lzma" then Lzma
    else No
  }

  /** The name the user gives for a compressed format. */
  function FormatName(f: CompressionFormat): string
    requires f != No
  {
    match f
    case Gzip => "gzip"
    case Bzip => "bzip"
    case Lzma => "lzma"
  }

  /** Naming a format selects it, whatever the input used. */
  lemma ChooseNamedFormat(f: CompressionFormat, input: CompressionFormat)
    requires f != No
    ensures ChooseCompression(input, true, FormatName(f)) == f
  {
  }

  /** "bzip2", the usual name of the bzip2 format, is not one of the accepted
      names and so selects no compression. */
  lemma Bzip2NameIsNotBzip(input: CompressionFormat)
    ensures ChooseCompression(input, true, "bzip2") == No
  {
  }
}
