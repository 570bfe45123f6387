/** Base64 image codec shared by the job-queue handlers and the web app:
    `decode_base64_image` (identical in handler.py, handler_simple.py and app.py)
    and the bare `encode_image_to_base64` of handler.py and handler_simple.py.
    The data-URL prefix is stripped by taking the second comma-separated field,
    a loose reading of the `data:` URL syntax of section 3 of RFC 2397. */
module Codec {
  import opened Base
  import opened JsonData
  import opened Imaging

  const DataImagePrefix := "data:image"
  const InvalidImagePrefix := "Invalid base64 image: "
  const IndexOutOfRange := "list index out of range"

  /** The fields of a comma-separated string, rejoined with commas. */
  function Join(fields: seq<string>): string
    requires |fields| >= 1
  {
    if |fields| == 1 then fields[0] else fields[0] + "," + Join(fields[1..])
  }

  /** Python's `s.split(',')`: at least one field, no field holds a comma, the
      fields rejoined give `s` back, and there is one field exactly when `s` has
      no comma. */
  function Split(s: string): (r: seq<string>)
    ensures |r| >= 1
    ensures forall k :: 0 <= k < |r| ==> ',' !in r[k]
    ensures Join(r) == s
    ensures |r| == 1 <==> ',' !in s
  {
    if |s| == 0 then [""]
    else
      var rest := Split(s[1..]);
      if s[0] == ',' then
        assert Join([""] + rest) == "," + Join(rest) by {
          assert ([""] + rest)[1..] == rest;
        }
        [""] + rest
      else
        var r := [[s[0]] + rest[0]] + rest[1..];
        assert s == [s[0]] + s[1..];
        assert Join(r) == [s[0]] + Join(rest) by {
          assert r[1..] == rest[1..];
          if |rest| > 1 {
            assert Join(r) == ([s[0]] + rest[0]) + "," + Join(rest[1..]);
          }
        }
        assert ',' in s ==> ',' in s[1..];
        r
  }

  /** Splitting a string whose first field is comma-free peels that field off. */
  lemma {:induction false} SplitAfterField(field: string, tail: string)
    requires ',' !in field
    ensures Split(field + "," + tail) == [field] + Split(tail)
    decreases |field|
  {
    var s := field + "," + tail;
    if |field| == 0 {
      assert s == "," + tail && s[1..] == tail;
    } else {
      assert s[1..] == field[1..] + "," + tail;
      assert ',' !in field[1..];
      SplitAfterField(field[1..], tail);
      assert [s[0]] + field[1..] == field;
    }
  }

  /** A comma-free string is a single field. */
  lemma SplitCommaFree(s: string)
    requires ',' !in s
    ensures Split(s) == [s]
  {
  }

  /** Split inverts Join on comma-free fields. */
  lemma {:induction false} SplitJoin(fields: seq<string>)
    requires |fields| >= 1
    requires forall k :: 0 <= k < |fields| ==> ',' !in fields[k]
    ensures Split(Join(fields)) == fields
  {
    if |fields| == 1 {
      SplitCommaFree(fields[0]);
    } else {
      SplitJoin(fields[1..]);
      SplitAfterField(fields[0], Join(fields[1..]));
      assert [fields[0]] + fields[1..] == fields;
    }
  }

  /** Lines 45-46 of handler.py: a string starting with "data:image" is replaced
      by its second comma-separated field, which fails when there is no comma;
      any other string is kept unchanged. */
  function StripDataUrlPrefix(s: string): (r: Result<string>)
    ensures !StartsWith(s, DataImagePrefix) ==> r == Ok(s)
    ensures StartsWith(s, DataImagePrefix) ==> (r.Ok? <==> ',' in s)
    ensures StartsWith(s, DataImagePrefix) && r.Ok? ==> ',' !in r.value && |r.value| < |s|
    ensures r.Err? ==> r.msg == IndexOutOfRange
  {
    if StartsWith(s, DataImagePrefix) then
      var fields := Split(s);
      if |fields| >= 2 then
        assert |fields[1]| < |s| by {
          assert s == fields[0] + "," + Join(fields[1..]);
          assert Join(fields[1..]) == fields[1] || StartsWith(Join(fields[1..]), fields[1]);
        }
        Ok(fields[1])
      else Err(IndexOutOfRange)
    else Ok(s)
  }

  /** The text between the first and second comma is what the strip keeps. */
  lemma StripKeepsSecondField(head: string, field: string, tail: string)
    requires StartsWith(head, DataImagePrefix)
    requires ',' !in head && ',' !in field
    requires tail == "" || tail[0] == ','
    ensures StripDataUrlPrefix(head + "," + field + tail) == Ok(field)
  {
    var s := head + "," + field + tail;
    assert s[..|DataImagePrefix|] == head[..|DataImagePrefix|];
    assert s == head + "," + (field + tail);
    SplitAfterField(head, field + tail);
    if tail == "" {
      assert field + tail == field;
      SplitCommaFree(field);
    } else {
      assert field + tail == field + "," + tail[1..];
      SplitAfterField(field, tail[1..]);
    }
  }

  /** Lines 48-50 of handler.py: base64-decode, parse, convert to RGB; any
      failure is wrapped. */
  function DecodePayload(lib: ImageLibrary, payload: string): (r: Result<Image>)
    ensures r.Err? ==> StartsWith(r.msg, InvalidImagePrefix)
    ensures r.Ok? ==> r.value.mode == "RGB"
    ensures lib.b64decode(payload).Err? ==> r == Err(InvalidImagePrefix + lib.b64decode(payload).msg)
    ensures lib.b64decode(payload).Ok? && lib.open(lib.b64decode(payload).value).Err? ==>
      r == Err(InvalidImagePrefix + lib.open(lib.b64decode(payload).value).msg)
    ensures r.Ok? ==> r.value == ConvertRgb(lib.open(lib.b64decode(payload).value).value)
  {
    match lib.b64decode(payload)
    case Err(e) => Err(InvalidImagePrefix + e)
    case Ok(data) => (
      match lib.open(data)
      case Err(e) => Err(InvalidImagePrefix + e)
      case Ok(img) => Ok(ConvertRgb(img)))
  }

  /** `decode_base64_image`: every failure, including a value that is not a
      string, surfaces as a message starting "Invalid base64 image: "; a decoded
      image is always RGB. A string starting with "data:image" is decoded from
      its second comma-separated field, any other string as it is. */
  function DecodeBase64Image(lib: ImageLibrary, v: Json): (r: Result<Image>)
    ensures r.Err? ==> StartsWith(r.msg, InvalidImagePrefix)
    ensures r.Ok? ==> v.JStr? && r.value.mode == "RGB"
    ensures !v.JStr? ==> r == Err(InvalidImagePrefix + NoAttribute(v, "startswith"))
    ensures v.JStr? && !StartsWith(v.s, DataImagePrefix) ==> r == DecodePayload(lib, v.s)
    ensures v.JStr? && StartsWith(v.s, DataImagePrefix) ==>
      if ',' in v.s then r == DecodePayload(lib, Split(v.s)[1])
      else r == Err(InvalidImagePrefix + IndexOutOfRange)
  {
    match v
    case JStr(s) => (
      match StripDataUrlPrefix(s)
      case Err(e) => Err(InvalidImagePrefix + e)
      case Ok(payload) => DecodePayload(lib, payload))
    case _ => Err(InvalidImagePrefix + NoAttribute(v, "startswith"))
  }

  /** `encode_image_to_base64` of the job-queue handlers: the bare base64 text
      of the PNG bytes, with no data-URL prefix. */
  function EncodeImageToBase64(lib: ImageLibrary, img: Image): (r: Result<string>)
    ensures r.Ok? <==> lib.savePng(img).Ok?
    ensures r.Ok? ==> r.value == lib.b64encode(lib.savePng(img).value)
    ensures r.Err? ==> r == Err(lib.savePng(img).msg)
    ensures r.Ok? && Lawful(lib) ==>
      && IsBase64Text(r.value)
      && !StartsWith(r.value, DataImagePrefix)
      && StripDataUrlPrefix(r.value) == Ok(r.value)
  {
    match lib.savePng(img)
    case Err(e) => Err(e)
    case Ok(png) =>
      Base64TextIsNotDataUrl(lib.b64encode(png));
      Ok(lib.b64encode(png))
  }

  /** Base64 text holds neither a comma nor the colon of "data:image". */
  lemma Base64TextIsNotDataUrl(s: string)
    ensures IsBase64Text(s) ==> ',' !in s && !StartsWith(s, DataImagePrefix)
  {
    if IsBase64Text(s) && |DataImagePrefix| <= |s| {
      assert IsBase64Char(s[4]) && DataImagePrefix[4] == ':';
      assert s[..|DataImagePrefix|][4] != DataImagePrefix[4];
    }
  }

  /** Decoding the bare encoding gives the image back, converted to RGB. */
  lemma DecodeInvertsEncode(lib: ImageLibrary, img: Image)
    requires Lawful(lib)
    requires lib.savePng(img).Ok?
    ensures EncodeImageToBase64(lib, img).Ok?
    ensures DecodeBase64Image(lib, JStr(EncodeImageToBase64(lib, img).value)) == Ok(ConvertRgb(img))
  {
    var png := lib.savePng(img).value;
    var text := lib.b64encode(png);
    Base64TextIsNotDataUrl(text);
    assert lib.b64decode(text) == Ok(png);
    assert lib.open(png) == Ok(img);
  }
}
