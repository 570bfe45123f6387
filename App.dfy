/** app.py: the Flask web app. `POST /api/try-on` answers with an HTTP status
    code and a JSON body; `GET /health` reports whether a model is loaded. The
    request body is the value `request.get_json()` returned. */
module App {
  import opened Base
  import opened JsonData
  import opened Imaging
  import opened Codec
  import opened TryOn
  import opened Envelopes

  const DataUrlPrefix := "data:image/png;base64,"
  const MissingFields := "Missing required fields: person_image and clothing_image"

  datatype Response = Response(code: int, body: Envelope)

  /** `encode_image_to_base64` of the web app: the bare base64 of the PNG bytes
      behind the "data:image/png;base64," prefix. */
  function EncodeImageToDataUrl(lib: ImageLibrary, img: Image): (r: Result<string>)
    ensures r.Ok? <==> lib.savePng(img).Ok?
    ensures r.Ok? ==> r.value == DataUrlPrefix + EncodeImageToBase64(lib, img).value
    ensures r.Err? ==> r == Err(lib.savePng(img).msg)
  {
    match EncodeImageToBase64(lib, img)
    case Err(e) => Err(e)
    case Ok(text) => Ok(DataUrlPrefix + text)
  }

  /** The decoder's prefix strip applied to the web encoding recovers exactly
      the bare base64 payload, since base64 text has no comma. */
  lemma StripRecoversPayload(lib: ImageLibrary, img: Image)
    requires Lawful(lib)
    requires lib.savePng(img).Ok?
    ensures StripDataUrlPrefix(EncodeImageToDataUrl(lib, img).value) == Ok(EncodeImageToBase64(lib, img).value)
  {
    var text := EncodeImageToBase64(lib, img).value;
    Base64TextIsNotDataUrl(text);
    var head := "data:image/png;base64";
    assert DataUrlPrefix + text == head + "," + text + "";
    StripKeepsSecondField(head, text, "");
  }

  /** Decoding the web encoding gives the image back, converted to RGB. */
  lemma DecodeInvertsDataUrl(lib: ImageLibrary, img: Image)
    requires Lawful(lib)
    requires lib.savePng(img).Ok?
    ensures EncodeImageToDataUrl(lib, img).Ok?
    ensures DecodeBase64Image(lib, JStr(EncodeImageToDataUrl(lib, img).value)) == Ok(ConvertRgb(img))
  {
    StripRecoversPayload(lib, img);
    DecodeInvertsEncode(lib, img);
  }

  /** `not data or 'person_image' not in data or 'clothing_image' not in data`,
      evaluated left to right: Ok(true) means the request is turned away. */
  function MissingRequired(data: Json): (r: Result<bool>)
    ensures !Truthy(data) ==> r == Ok(true)
    ensures data.JObject? ==> r == Ok("person_image" !in data.fields || "clothing_image" !in data.fields)
    ensures Truthy(data) && data.JStr? ==>
      r == Ok(!IsSubstring("person_image", data.s) || !IsSubstring("clothing_image", data.s))
    ensures Truthy(data) && data.JArray? ==>
      r == Ok(JStr("person_image") !in data.items || JStr("clothing_image") !in data.items)
    ensures r.Err? <==> Truthy(data) && !(data.JObject? || data.JStr? || data.JArray?)
  {
    if !Truthy(data) then Ok(true)
    else
      match Contains(data, "person_image")
      case Err(e) => Err(e)
      case Ok(false) => Ok(true)
      case Ok(true) =>
        match Contains(data, "clothing_image")
        case Err(e) => Err(e)
        case Ok(found) => Ok(!found)
  }

  /** The body of the `try` after validation, lines 121-131. */
  function Run(lib: ImageLibrary, pipe: Option<Pipeline>, data: Json): (r: Result<string>)
    ensures r.Ok? ==> pipe.Some? && StartsWith(r.value, DataUrlPrefix)
    ensures !data.JObject? ==> r == Err(GetItem(data, "person_image").msg)
  {
    match GetItem(data, "person_image")
    case Err(e) => Err(e)
    case Ok(personValue) => (
      match DecodeBase64Image(lib, personValue)
      case Err(e) => Err(e)
      case Ok(person) => (
        match GetItem(data, "clothing_image")
        case Err(e) => Err(e)
        case Ok(clothingValue) => (
          match DecodeBase64Image(lib, clothingValue)
          case Err(e) => Err(e)
          case Ok(clothing) => (
            match Get(data, "prompt", JStr(""))
            case Err(e) => Err(e)
            case Ok(prompt) => (
              match ProcessVirtualTryOn(pipe, person, clothing, prompt)
              case Err(e) => Err(e)
              case Ok(result) => EncodeImageToDataUrl(lib, result))))))
  }

  /** `api_try_on`. An absent or empty body, or a missing field, gives 400 with
      only the error text; any exception in decoding, processing or encoding
      gives 500 with the error envelope; success gives 200 with the data-URL
      image, the processing time and status "success", which needs a loaded
      pipeline. A truthy body that is not a dict gives 500: it fails either at
      the membership test or, when it names both fields, at the subscript. */
  function ApiTryOn(lib: ImageLibrary, pipe: Option<Pipeline>, data: Json, elapsed: real): (r: Response)
    ensures r.code == 200 || r.code == 400 || r.code == 500
    ensures !Truthy(data) ==> r.code == 400
    ensures data.JObject? ==> (r.code == 400 <==> "person_image" !in data.fields || "clothing_image" !in data.fields)
    ensures r.code == 400 ==> r.body == map["error" := JStr(MissingFields)]
    ensures r.code == 400 <==> MissingRequired(data) == Ok(true)
    ensures MissingRequired(data).Err? ==> r == Response(500, ErrorEnvelope(MissingRequired(data).msg, elapsed))
    ensures MissingRequired(data) == Ok(false) && !data.JObject? ==>
      r == Response(500, ErrorEnvelope(GetItem(data, "person_image").msg, elapsed))
    ensures r.code == 500 ==> IsErrorEnvelope(r.body, elapsed)
    ensures r.code == 200 ==>
      && IsSuccessEnvelope(r.body, elapsed)
      && StartsWith(r.body["result_image"].s, DataUrlPrefix)
      && pipe.Some?
    ensures data.JObject? && "person_image" in data.fields && "clothing_image" in data.fields ==>
      match DecodeBase64Image(lib, data.fields["person_image"])
      case Err(e) => r == Response(500, ErrorEnvelope(e, elapsed))
      case Ok(_) =>
        match DecodeBase64Image(lib, data.fields["clothing_image"])
        case Err(e) => r == Response(500, ErrorEnvelope(e, elapsed))
        case Ok(_) => pipe.None? ==> r == Response(500, ErrorEnvelope(ModelNotLoaded, elapsed))
  {
    match MissingRequired(data)
    case Err(e) => Response(500, ErrorEnvelope(e, elapsed))
    case Ok(true) => Response(400, map["error" := JStr(MissingFields)])
    case Ok(false) =>
      match Run(lib, pipe, data)
      case Err(e) => Response(500, ErrorEnvelope(e, elapsed))
      case Ok(encoded) => Response(200, SuccessEnvelope(encoded, elapsed))
  }

  /** Once both images decode and a pipeline is loaded, a pipeline failure
      reaches the client as 500 with the wrapped message. */
  lemma PipelineFailureIsWrapped(lib: ImageLibrary, generate: Pipeline, fields: map<string, Json>,
                                 person: Image, clothing: Image, msg: string, elapsed: real)
    requires "person_image" in fields && "clothing_image" in fields
    requires DecodeBase64Image(lib, fields["person_image"]) == Ok(person)
    requires DecodeBase64Image(lib, fields["clothing_image"]) == Ok(clothing)
    requires generate(EffectivePrompt(PromptOf(fields)), Resize(person, 512, 768), Resize(clothing, 512, 512)) == Err(msg)
    ensures ApiTryOn(lib, Some(generate), JObject(fields), elapsed)
      == Response(500, ErrorEnvelope(ProcessingFailedPrefix + msg, elapsed))
  {
    var data := JObject(fields);
    assert MissingRequired(data) == Ok(false);
    assert Get(data, "prompt", JStr("")) == Ok(PromptOf(fields));
    assert ProcessVirtualTryOn(Some(generate), person, clothing, PromptOf(fields)) == Err(ProcessingFailedPrefix + msg);
    assert Run(lib, Some(generate), data) == Err(ProcessingFailedPrefix + msg);
  }

  /** Once both images decode and the pipeline answers, the client gets 200
      with the data-URL encoding of the pipeline's image, or 500 with the
      encoder's error. */
  lemma PipelineOutputIsEncoded(lib: ImageLibrary, generate: Pipeline, fields: map<string, Json>,
                                person: Image, clothing: Image, out: Image, elapsed: real)
    requires "person_image" in fields && "clothing_image" in fields
    requires DecodeBase64Image(lib, fields["person_image"]) == Ok(person)
    requires DecodeBase64Image(lib, fields["clothing_image"]) == Ok(clothing)
    requires generate(EffectivePrompt(PromptOf(fields)), Resize(person, 512, 768), Resize(clothing, 512, 512)) == Ok(out)
    ensures ApiTryOn(lib, Some(generate), JObject(fields), elapsed) ==
      match EncodeImageToDataUrl(lib, out)
      case Ok(text) => Response(200, SuccessEnvelope(text, elapsed))
      case Err(e) => Response(500, ErrorEnvelope(e, elapsed))
  {
    var data := JObject(fields);
    assert MissingRequired(data) == Ok(false);
    assert Get(data, "prompt", JStr("")) == Ok(PromptOf(fields));
    assert ProcessVirtualTryOn(Some(generate), person, clothing, PromptOf(fields)) == Ok(out);
    assert Run(lib, Some(generate), data) == EncodeImageToDataUrl(lib, out);
  }

  /** End to end: two images sent as data URLs, with any prompt, give 200 with
      an image that decodes to what the pipeline makes of the effective prompt
      and the two RGB images resized to 512x768 and 512x512. */
  lemma ApiTryOnRoundTrip(lib: ImageLibrary, generate: Pipeline, person: Image, clothing: Image,
                          prompt: Json, out: Image, elapsed: real)
    requires Lawful(lib)
    requires lib.savePng(person).Ok? && lib.savePng(clothing).Ok? && lib.savePng(out).Ok?
    requires generate(EffectivePrompt(prompt), Image(512, 768, "RGB"), Image(512, 512, "RGB")) == Ok(out)
    ensures var data := JObject(map[
        "person_image" := JStr(EncodeImageToDataUrl(lib, person).value),
        "clothing_image" := JStr(EncodeImageToDataUrl(lib, clothing).value),
        "prompt" := prompt]);
      var r := ApiTryOn(lib, Some(generate), data, elapsed);
      && r.code == 200
      && DecodeBase64Image(lib, r.body["result_image"]) == Ok(ConvertRgb(out))
  {
    DecodeInvertsDataUrl(lib, person);
    DecodeInvertsDataUrl(lib, clothing);
    DecodeInvertsDataUrl(lib, out);
    var fields := map[
        "person_image" := JStr(EncodeImageToDataUrl(lib, person).value),
        "clothing_image" := JStr(EncodeImageToDataUrl(lib, clothing).value),
        "prompt" := prompt];
    assert PromptOf(fields) == prompt;
    PipelineOutputIsEncoded(lib, generate, fields, ConvertRgb(person), ConvertRgb(clothing), out, elapsed);
  }

  /** The device string: "cuda" when a GPU is available, else "cpu". */
  function Device(cudaAvailable: bool): string
  {
    if cudaAvailable then "cuda" else "cpu"
  }

  /** `health_check`: always healthy; `model_loaded` is true exactly when a
      pipeline is loaded. */
  function HealthCheck(pipe: Option<Pipeline>, cudaAvailable: bool): (r: Envelope)
    ensures r.Keys == {"status", "model_loaded", "device"}
    ensures r["status"] == JStr("healthy")
    ensures r["model_loaded"] == JBool(pipe.Some?)
    ensures r["device"] == JStr(if cudaAvailable then "cuda" else "cpu")
  {
    map["status" := JStr("healthy"), "model_loaded" := JBool(pipe.Some?), "device" := JStr(Device(cudaAvailable))]
  }
}
