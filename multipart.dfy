/**
 * The multipart/form-data request body of the transcription request
 * (voice-memo-app/Services/GPTService.swift, `transcribeAudio`), following
 * section 4 of RFC 7578 with the delimiters of section 5.1.1 of RFC 2046.
 */
module Multipart {
  import opened Wrappers
  import opened ByteData

  /** One form field: its name, an optional file name and content type, and its bytes. */
  datatype Part = Part(name: string, filename: Option<string>, contentType: Option<string>, content: Bytes)

  function DashBoundary(boundary: string): string {
    "--" + boundary
  }

  /** The Content-Disposition header line of a part (section 4.2 of RFC 7578). */
  function DispositionLine(p: Part): string {
    "Content-Disposition: form-data; name=\"" + p.name + "\""
    + (if p.filename.Some? then "; filename=\"" + p.filename.value + "\"" else "")
    + "\r\n"
  }

  /** The Content-Type header line of a part, present only when the part names a type (section 4.4 of RFC 7578). */
  function TypeLine(p: Part): string {
    if p.contentType.Some? then "Content-Type: " + p.contentType.value + "\r\n" else ""
  }

  /**
   * One body part: the dash-boundary line, the header lines, the empty
   * line, the content, and the CRLF with which the next delimiter starts.
   */
  function EncodePart(boundary: string, p: Part): Bytes {
    PartHeader(boundary, p) + p.content + Utf8Encode("\r\n")
  }

  /** The bytes of a part before its content: the dash-boundary line, the header lines, the empty line. */
  function PartHeader(boundary: string, p: Part): Bytes {
    Utf8Encode(DashBoundary(boundary) + "\r\n") + Utf8Encode(DispositionLine(p)) + Utf8Encode(TypeLine(p))
    + Utf8Encode("\r\n")
  }

  function EncodeParts(boundary: string, ps: seq<Part>): Bytes {
    if ps == [] then [] else EncodePart(boundary, ps[0]) + EncodeParts(boundary, ps[1..])
  }

  /** The close delimiter: the dash-boundary followed by "--" and CRLF. */
  function CloseDelimiter(boundary: string): string {
    DashBoundary(boundary) + "--\r\n"
  }

  /** A whole multipart/form-data body: the parts in order, then the close delimiter. */
  function FormData(boundary: string, ps: seq<Part>): Bytes {
    EncodeParts(boundary, ps) + Utf8Encode(CloseDelimiter(boundary))
  }

  /** The fields of a transcription request, in the order they are sent. */
  function TranscriptionParts(audio: Bytes): (ps: seq<Part>)
    ensures |ps| == 3
    ensures ps[0] == Part("file", Some("audio.m4a"), Some("audio/m4a"), audio)
    ensures ps[1].name == "model" && ps[1].content == Utf8Encode("whisper-1")
    ensures ps[2].name == "response_format" && ps[2].content == Utf8Encode("text")
  {
    [Part("file", Some("audio.m4a"), Some("audio/m4a"), audio),
     Part("model", None, None, Utf8Encode("whisper-1")),
     Part("response_format", None, None, Utf8Encode("text"))]
  }

  lemma FileDispositionText(audio: Bytes)
    ensures DispositionLine(Part("file", Some("audio.m4a"), Some("audio/m4a"), audio))
         == "Content-Disposition: form-data; name=\"file\"; filename=\"audio.m4a\"\r\n"
  {
  }

  lemma FileTypeText(audio: Bytes)
    ensures TypeLine(Part("file", Some("audio.m4a"), Some("audio/m4a"), audio)) + "\r\n"
         == "Content-Type: audio/m4a\r\n\r\n"
  {
  }

  lemma TextDispositionText(name: string, value: string)
    ensures DispositionLine(Part(name, None, None, Utf8Encode(value))) + "\r\n"
         == "Content-Disposition: form-data; name=\"" + name + "\"\r\n\r\n"
  {
  }

  /** The three header appends of the file field produce its part header. */
  lemma FileHeaderBytes(boundary: string, audio: Bytes)
    ensures Utf8Encode("--" + boundary + "\r\n")
            + Utf8Encode("Content-Disposition: form-data; name=\"file\"; filename=\"audio.m4a\"\r\n")
            + Utf8Encode("Content-Type: audio/m4a\r\n\r\n")
         == PartHeader(boundary, Part("file", Some("audio.m4a"), Some("audio/m4a"), audio))
  {
    var p := Part("file", Some("audio.m4a"), Some("audio/m4a"), audio);
    var open := Utf8Encode("--" + boundary + "\r\n");
    var disposition := Utf8Encode(DispositionLine(p));
    var typeLine := Utf8Encode(TypeLine(p));
    FileDispositionText(audio);
    FileTypeText(audio);
    Utf8Concat(TypeLine(p), "\r\n");
    assert Utf8Encode("Content-Type: audio/m4a\r\n\r\n") == typeLine + Utf8Encode("\r\n");
    Associative(open + disposition, typeLine, Utf8Encode("\r\n"));
  }

  /** Regrouping over any element type: applied to encoded strings, it keeps the solver from unfolding their encodings. */
  lemma Associative<T>(a: seq<T>, b: seq<T>, c: seq<T>)
    ensures a + b + c == a + (b + c)
  {
  }

  /** The three appends of a text field produce its encoded part. */
  lemma TextFieldBytes(boundary: string, name: string, value: string)
    ensures Utf8Encode("--" + boundary + "\r\n")
            + Utf8Encode("Content-Disposition: form-data; name=\"" + name + "\"\r\n\r\n")
            + Utf8Encode(value + "\r\n")
         == EncodePart(boundary, Part(name, None, None, Utf8Encode(value)))
  {
    var p := Part(name, None, None, Utf8Encode(value));
    var open, crlf := Utf8Encode("--" + boundary + "\r\n"), Utf8Encode("\r\n");
    var disposition := Utf8Encode(DispositionLine(p));
    TextDispositionText(name, value);
    Utf8Concat(DispositionLine(p), "\r\n");
    assert Utf8Encode("Content-Disposition: form-data; name=\"" + name + "\"\r\n\r\n") == disposition + crlf;
    Utf8Concat(value, "\r\n");
    assert Utf8Encode(TypeLine(p)) == [];
    assert PartHeader(boundary, p) == open + disposition + [] + crlf;
    SpliceCrlf(open, disposition, crlf, Utf8Encode(value));
  }

  /** The text field's byte layout, regrouped over any element type for the same reason as `Associative`. */
  lemma SpliceCrlf<T>(o: seq<T>, d: seq<T>, c: seq<T>, v: seq<T>)
    ensures o + (d + c) + (v + c) == o + d + [] + c + v + c
  {
  }

  /** The dash-boundary line and the two header lines of the file field. */
  method AppendFileHeader(data: Data, boundary: string, audio: Bytes)
    modifies data
    ensures data.bytes == old(data.bytes) + PartHeader(boundary, Part("file", Some("audio.m4a"), Some("audio/m4a"), audio))
  {
    ghost var start := data.bytes;
    data.AppendString("--" + boundary + "\r\n");
    data.AppendString("Content-Disposition: form-data; name=\"file\"; filename=\"audio.m4a\"\r\n");
    data.AppendString("Content-Type: audio/m4a\r\n\r\n");
    FileHeaderAfter(start, boundary, audio);
  }

  lemma FileHeaderAfter(start: Bytes, boundary: string, audio: Bytes)
    ensures start + Utf8Encode("--" + boundary + "\r\n")
            + Utf8Encode("Content-Disposition: form-data; name=\"file\"; filename=\"audio.m4a\"\r\n")
            + Utf8Encode("Content-Type: audio/m4a\r\n\r\n")
         == start + PartHeader(boundary, Part("file", Some("audio.m4a"), Some("audio/m4a"), audio))
  {
    FileHeaderBytes(boundary, audio);
    GroupThree(start, Utf8Encode("--" + boundary + "\r\n"),
               Utf8Encode("Content-Disposition: form-data; name=\"file\"; filename=\"audio.m4a\"\r\n"),
               Utf8Encode("Content-Type: audio/m4a\r\n\r\n"));
  }

  /** The file field: the audio bytes, named audio.m4a, typed audio/m4a. */
  method AppendFilePart(data: Data, boundary: string, audio: Bytes)
    modifies data
    ensures data.bytes == old(data.bytes) + EncodePart(boundary, Part("file", Some("audio.m4a"), Some("audio/m4a"), audio))
  {
    ghost var start := data.bytes;
    AppendFileHeader(data, boundary, audio);
    data.Append(audio);
    data.AppendString("\r\n");
    GroupThree(start, PartHeader(boundary, Part("file", Some("audio.m4a"), Some("audio/m4a"), audio)), audio, Utf8Encode("\r\n"));
  }

  /** A plain text field: no file name, no content type, the value as UTF-8. */
  method AppendTextField(data: Data, boundary: string, name: string, value: string)
    modifies data
    ensures data.bytes == old(data.bytes) + EncodePart(boundary, Part(name, None, None, Utf8Encode(value)))
  {
    ghost var start := data.bytes;
    data.AppendString("--" + boundary + "\r\n");
    ghost var part := Utf8Encode("--" + boundary + "\r\n");
    data.AppendString("Content-Disposition: form-data; name=\"" + name + "\"\r\n\r\n");
    Associative(start, part, Utf8Encode("Content-Disposition: form-data; name=\"" + name + "\"\r\n\r\n"));
    part := part + Utf8Encode("Content-Disposition: form-data; name=\"" + name + "\"\r\n\r\n");
    data.AppendString(value + "\r\n");
    Associative(start, part, Utf8Encode(value + "\r\n"));
    TextFieldBytes(boundary, name, value);
  }

  /** Three appends after a prefix are one append of their concatenation; stated generically like `Associative`. */
  lemma GroupThree<T>(s: seq<T>, a: seq<T>, b: seq<T>, c: seq<T>)
    ensures s + a + b + c == s + (a + b + c)
  {
  }

  /**
   * The body as `transcribeAudio` builds it, one `append` at a time, is
   * exactly the form-data encoding of the file, model and response_format
   * fields followed by the close delimiter.
   */
  method BuildTranscriptionBody(boundary: string, audio: Bytes) returns (body: Bytes)
    ensures body == FormData(boundary, TranscriptionParts(audio))
  {
    var data := new Data();
    AppendFilePart(data, boundary, audio);
    AppendTextField(data, boundary, "model", "whisper-1");
    AppendTextField(data, boundary, "response_format", "text");
    data.AppendString("--" + boundary + "--\r\n");
    body := data.bytes;
    TranscriptionBodyBytes(boundary, audio);
    assert [] + EncodePart(boundary, Part("file", Some("audio.m4a"), Some("audio/m4a"), audio)) == EncodePart(boundary, Part("file", Some("audio.m4a"), Some("audio/m4a"), audio));
  }

  /** The three fields' parts followed by the close delimiter form the transcription body. */
  lemma TranscriptionBodyBytes(boundary: string, audio: Bytes)
    ensures EncodePart(boundary, Part("file", Some("audio.m4a"), Some("audio/m4a"), audio))
            + EncodePart(boundary, Part("model", None, None, Utf8Encode("whisper-1")))
            + EncodePart(boundary, Part("response_format", None, None, Utf8Encode("text")))
            + Utf8Encode("--" + boundary + "--\r\n")
         == FormData(boundary, TranscriptionParts(audio))
  {
    var ps := TranscriptionParts(audio);
    EncodeThree(boundary, ps[0], ps[1], ps[2]);
    assert ps == [ps[0], ps[1], ps[2]];
    assert CloseDelimiter(boundary) == "--" + boundary + "--\r\n";
  }

  lemma EncodeThree(boundary: string, a: Part, b: Part, c: Part)
    ensures EncodePart(boundary, a) + EncodePart(boundary, b) + EncodePart(boundary, c)
         == EncodeParts(boundary, [a, b, c])
  {
    EncodeOne(boundary, a);
    EncodeOne(boundary, b);
    EncodeOne(boundary, c);
    assert [a] + [b] == [a, b];
    EncodePartsAppend(boundary, [a], [b]);
    assert [a, b] + [c] == [a, b, c];
    EncodePartsAppend(boundary, [a, b], [c]);
  }

  lemma EncodeOne(boundary: string, p: Part)
    ensures EncodeParts(boundary, [p]) == EncodePart(boundary, p)
  {
    assert [p][1..] == [];
  }

  /** Where the content of part `i` starts in the body: after the parts before it and its own header. */
  function ContentOffset(boundary: string, ps: seq<Part>, i: nat): nat
    requires i < |ps|
  {
    |EncodeParts(boundary, ps[..i])| + |PartHeader(boundary, ps[i])|
  }

  /** Encoding the parts distributes over concatenation of the part lists. */
  lemma {:induction false} EncodePartsAppend(boundary: string, a: seq<Part>, b: seq<Part>)
    ensures EncodeParts(boundary, a + b) == EncodeParts(boundary, a) + EncodeParts(boundary, b)
  {
    if a == [] {
      assert a + b == b;
    } else {
      assert (a + b)[0] == a[0] && (a + b)[1..] == a[1..] + b;
      EncodePartsAppend(boundary, a[1..], b);
      assert EncodePart(boundary, a[0]) + EncodeParts(boundary, a[1..]) + EncodeParts(boundary, b)
          == EncodePart(boundary, a[0]) + (EncodeParts(boundary, a[1..]) + EncodeParts(boundary, b));
    }
  }

  /** Every part's bytes travel unchanged: they sit intact at their offset in the body. */
  lemma ContentIntact(boundary: string, ps: seq<Part>, i: nat)
    requires i < |ps|
    ensures ContentOffset(boundary, ps, i) + |ps[i].content| <= |FormData(boundary, ps)|
    ensures FormData(boundary, ps)[ContentOffset(boundary, ps, i)..ContentOffset(boundary, ps, i) + |ps[i].content|]
            == ps[i].content
  {
    var before, header, content := EncodeParts(boundary, ps[..i]), PartHeader(boundary, ps[i]), ps[i].content;
    var after := Utf8Encode("\r\n") + EncodeParts(boundary, ps[i + 1..]) + Utf8Encode(CloseDelimiter(boundary));
    BodyAroundPart(boundary, ps, i);
    assert (before + header + content + after)[|before + header|..|before + header| + |content|] == content;
  }

  /** The body around part `i`: the parts before it, its header, its content, and everything after. */
  lemma BodyAroundPart(boundary: string, ps: seq<Part>, i: nat)
    requires i < |ps|
    ensures FormData(boundary, ps)
         == EncodeParts(boundary, ps[..i]) + PartHeader(boundary, ps[i]) + ps[i].content
            + (Utf8Encode("\r\n") + EncodeParts(boundary, ps[i + 1..]) + Utf8Encode(CloseDelimiter(boundary)))
  {
    assert ps == ps[..i] + ps[i..];
    EncodePartsAppend(boundary, ps[..i], ps[i..]);
    assert ps[i..][0] == ps[i] && ps[i..][1..] == ps[i + 1..];
    Regroup(EncodeParts(boundary, ps[..i]), PartHeader(boundary, ps[i]), ps[i].content,
            Utf8Encode("\r\n"), EncodeParts(boundary, ps[i + 1..]), Utf8Encode(CloseDelimiter(boundary)));
  }

  /** The body around one part, regrouped; stated generically like `Associative`. */
  lemma Regroup<T>(a: seq<T>, h: seq<T>, c: seq<T>, r1: seq<T>, r2: seq<T>, z: seq<T>)
    ensures a + (h + c + r1 + r2) + z == a + h + c + (r1 + r2 + z)
  {
  }

  /** Every body ends with the close delimiter, whatever its parts. */
  lemma EndsWithClose(boundary: string, ps: seq<Part>)
    ensures |FormData(boundary, ps)| >= |Utf8Encode(CloseDelimiter(boundary))|
    ensures FormData(boundary, ps)[|FormData(boundary, ps)| - |Utf8Encode(CloseDelimiter(boundary))|..]
            == Utf8Encode(CloseDelimiter(boundary))
  {
  }
}
