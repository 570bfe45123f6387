/** handler_simple.py: the job handler with an alpha blend standing in for the
    diffusion model. Decoding and bare encoding are the shared codec. */
module HandlerSimple {
  import opened Base
  import opened JsonData
  import opened Imaging
  import opened Codec
  import opened Envelopes

  const BlendMessage := "Simple image blending completed (placeholder for AI model)"

  /** `simple_image_blend`: both images are resized to 512x768 (the clothing
      image too) and blended, so the result is 512x768 whenever the modes agree;
      images of different modes cannot be blended. */
  function SimpleImageBlend(person: Image, clothing: Image): (r: Result<Image>)
    ensures person.mode == clothing.mode ==> r == Ok(Image(512, 768, person.mode))
    ensures person.mode != clothing.mode ==> r.Err?
  {
    Blend(Resize(person, 512, 768), Resize(clothing, 512, 768))
  }

  /** The validation answer: the combined error text and a status, no
      processing time. */
  const MissingEnvelope: Envelope := map["error" := JStr(MissingInputs), "status" := JStr("error")]

  /** The body of the `try` after validation, lines 56-68: the person image is
      decoded first, then the clothing image; two decoded images are both RGB,
      so they always blend into a 512x768 RGB image, which is then encoded. */
  function Run(lib: ImageLibrary, fields: map<string, Json>): (r: Result<string>)
    requires "person_image" in fields && "clothing_image" in fields
    ensures r.Ok? <==>
      && DecodeBase64Image(lib, fields["person_image"]).Ok?
      && DecodeBase64Image(lib, fields["clothing_image"]).Ok?
      && lib.savePng(Image(512, 768, "RGB")).Ok?
    ensures r.Ok? ==> r == EncodeImageToBase64(lib, Image(512, 768, "RGB"))
    ensures DecodeBase64Image(lib, fields["person_image"]).Err? ==>
      r == Err(DecodeBase64Image(lib, fields["person_image"]).msg)
    ensures DecodeBase64Image(lib, fields["person_image"]).Ok? && DecodeBase64Image(lib, fields["clothing_image"]).Err? ==>
      r == Err(DecodeBase64Image(lib, fields["clothing_image"]).msg)
  {
    match DecodeBase64Image(lib, fields["person_image"])
    case Err(e) => Err(e)
    case Ok(person) => (
      match DecodeBase64Image(lib, fields["clothing_image"])
      case Err(e) => Err(e)
      case Ok(clothing) => (
        match SimpleImageBlend(person, clothing)
        case Err(e) => Err(e)
        case Ok(result) => EncodeImageToBase64(lib, result)))
  }

  /** `handler(job)`. A non-dict input fails at `.keys()` as an error envelope;
      a missing field gives the combined message with status "error" and no
      processing time; then the person image is decoded, then the clothing
      image, the first failure giving the error envelope; success carries the
      encoded 512x768 RGB blend, the processing time, status "success" and the
      fixed message. */
  function Handle(lib: ImageLibrary, job: map<string, Json>, elapsed: real): (r: Envelope)
    ensures !JobInput(job).JObject? ==>
      IsErrorEnvelope(r, elapsed) && r["error"] == JStr(NoAttribute(JobInput(job), "keys"))
    ensures JobInput(job).JObject? ==>
      var fields := JobInput(job).fields;
      if "person_image" !in fields || "clothing_image" !in fields then r == MissingEnvelope
      else
        match DecodeBase64Image(lib, fields["person_image"])
        case Err(e) => r == ErrorEnvelope(e, elapsed)
        case Ok(_) => (
          match DecodeBase64Image(lib, fields["clothing_image"])
          case Err(e) => r == ErrorEnvelope(e, elapsed)
          case Ok(_) => (
            match EncodeImageToBase64(lib, Image(512, 768, "RGB"))
            case Err(e) => r == ErrorEnvelope(e, elapsed)
            case Ok(text) =>
              && r.Keys == {"result_image", "processing_time", "status", "message"}
              && r["result_image"] == JStr(text)
              && r["processing_time"] == JFloat(elapsed)
              && r["status"] == JStr("success")
              && r["message"] == JStr(BlendMessage)))
    ensures r == MissingEnvelope || IsErrorEnvelope(r, elapsed) || r["status"] == JStr("success")
  {
    var input := JobInput(job);
    match Keys(input)
    case Err(e) => ErrorEnvelope(e, elapsed)
    case Ok(_) =>
      var fields := input.fields;
      if "person_image" !in fields || "clothing_image" !in fields then MissingEnvelope
      else
        match Run(lib, fields)
        case Err(e) => ErrorEnvelope(e, elapsed)
        case Ok(encoded) =>
          map[
            "result_image" := JStr(encoded),
            "processing_time" := JFloat(elapsed),
            "status" := JStr("success"),
            "message" := JStr(BlendMessage)]
  }

  /** End to end: two images of any sizes sent as bare base64 give a success
      envelope whose image decodes to a 512x768 RGB image. */
  lemma HandleRoundTrip(lib: ImageLibrary, person: Image, clothing: Image, elapsed: real)
    requires Lawful(lib)
    requires lib.savePng(person).Ok? && lib.savePng(clothing).Ok? && lib.savePng(Image(512, 768, "RGB")).Ok?
    ensures var job := map["input" := JObject(map[
        "person_image" := JStr(EncodeImageToBase64(lib, person).value),
        "clothing_image" := JStr(EncodeImageToBase64(lib, clothing).value)])];
      var r := Handle(lib, job, elapsed);
      && r["status"] == JStr("success")
      && DecodeBase64Image(lib, r["result_image"]) == Ok(Image(512, 768, "RGB"))
  {
    DecodeInvertsEncode(lib, person);
    DecodeInvertsEncode(lib, clothing);
    DecodeInvertsEncode(lib, Image(512, 768, "RGB"));
    var fields := map[
        "person_image" := JStr(EncodeImageToBase64(lib, person).value),
        "clothing_image" := JStr(EncodeImageToBase64(lib, clothing).value)];
    assert Run(lib, fields) == EncodeImageToBase64(lib, Image(512, 768, "RGB"));
  }
}
