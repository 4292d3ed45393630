/** The hand-made PNG blob of the v1 and v2 pages: the base64 part of the data URL
    `toDataURL` returns (section 3 of RFC 2397: `data:[<mediatype>][;base64],<data>`),
    decoded by `atob` into a binary string, copied char code by char code into an
    array, and narrowed to bytes by `new Uint8Array`. */
module DataUrl {
  import opened Fabric
  import opened Text

  /** `dataUrl.split(",")[1]`: the text after the first comma up to any second one;
      `None` is the `undefined` of a data URL without a comma. */
  function Base64Part(dataUrl: string): (part: Option<string>)
    ensures part.Some? <==> ',' in dataUrl
  {
    var pieces := Split(dataUrl, ',');
    SplitInTwoIffSeparator(dataUrl, ',');
    if |pieces| >= 2 then Some(pieces[1]) else None
  }

  /** A split has a second piece exactly when the separator occurs. */
  lemma {:induction false} SplitInTwoIffSeparator(s: string, sep: char)
    ensures |Split(s, sep)| >= 2 <==> sep in s
    decreases |s|
  {
    if s != [] {
      SplitInTwoIffSeparator(s[1..], sep);
      assert s == [s[0]] + s[1..];
    }
  }

  /** For a data URL whose header and payload hold no comma, the part taken is the
      payload. */
  lemma PayloadOfDataUrl(header: string, payload: string)
    requires ',' !in header && ',' !in payload
    ensures Base64Part(header + "," + payload) == Some(payload)
  {
    assert header + "," + payload == header + [','] + payload;
    SplitCons(header, ',', payload);
    SplitAtom(payload, ',');
  }

  /** The char codes `byteCharacters.charCodeAt(i)`, one per character. */
  function CharCodes(s: string): (codes: seq<int>)
    ensures |codes| == |s|
    ensures forall i :: 0 <= i < |s| ==> codes[i] == s[i] as int && codes[i] >= 0
    ensures IsBinaryString(s) <==> forall i :: 0 <= i < |codes| ==> codes[i] < 256
  {
    seq(|s|, i requires 0 <= i < |s| => s[i] as int)
  }

  /** The loop filling `new Array(byteCharacters.length)`. */
  method ByteNumbers(byteCharacters: string) returns (byteNumbers: array<int>)
    ensures fresh(byteNumbers)
    ensures byteNumbers.Length == |byteCharacters|
    ensures byteNumbers[..] == CharCodes(byteCharacters)
  {
    byteNumbers := new int[|byteCharacters|];
    for i := 0 to |byteCharacters|
      invariant forall k :: 0 <= k < i ==> byteNumbers[k] == byteCharacters[k] as int
    {
      byteNumbers[i] := byteCharacters[i] as int;
    }
  }

  type Byte = b: int | 0 <= b < 256

  /** `new Uint8Array(numbers)`: each number taken modulo 2^8. */
  function Uint8Array(numbers: seq<int>): (bytes: seq<Byte>)
    ensures |bytes| == |numbers|
    ensures forall i :: 0 <= i < |numbers| ==> (bytes[i] - numbers[i]) % 256 == 0
    ensures (forall i :: 0 <= i < |numbers| ==> 0 <= numbers[i] < 256) ==> bytes == numbers
  {
    seq(|numbers|, i requires 0 <= i < |numbers| => numbers[i] % 256)
  }

  /** What `atob` returns: a string of characters below 256, one per decoded byte. */
  predicate IsBinaryString(s: string) {
    forall i :: 0 <= i < |s| ==> s[i] as int < 256
  }

  /** Reading bytes back as the characters of a binary string. */
  function BinaryString(bytes: seq<Byte>): (s: string)
    ensures |s| == |bytes| && IsBinaryString(s)
  {
    seq(|bytes|, i requires 0 <= i < |bytes| => bytes[i] as char)
  }

  /** The copy loses nothing: the bytes of a decoded binary string read back as that
      string, so the blob holds exactly the bytes `atob` decoded. */
  lemma BytesOfBinaryString(s: string)
    requires IsBinaryString(s)
    ensures BinaryString(Uint8Array(CharCodes(s))) == s
  {
    var bytes := Uint8Array(CharCodes(s));
    forall i | 0 <= i < |s| ensures bytes[i] == s[i] as int { }
  }

  /** And the other way: bytes turned into a binary string and copied are unchanged. */
  lemma BinaryStringOfBytes(bytes: seq<Byte>)
    ensures Uint8Array(CharCodes(BinaryString(bytes))) == bytes
  {
  }
}
