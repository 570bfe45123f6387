/** handler.py: the RunPod job handler in front of the diffusion pipeline. */
module Handler {
  import opened Base
  import opened JsonData
  import opened Imaging
  import opened Codec
  import opened TryOn
  import opened Envelopes

  /** The body of the `try` after validation, lines 120-133: decode the person
      image, then the clothing image, read the optional prompt, run the
      pipeline and encode its image as bare base64. The first failure wins. */
  function Run(lib: ImageLibrary, pipe: Option<Pipeline>, input: Json): (r: Result<string>)
    ensures r.Ok? ==> pipe.Some? && input.JObject?
    ensures !input.JObject? ==> r == Err(GetItem(input, "person_image").msg)
  {
    match GetItem(input, "person_image")
    case Err(e) => Err(e)
    case Ok(personValue) => (
      match DecodeBase64Image(lib, personValue)
      case Err(e) => Err(e)
      case Ok(person) => (
        match GetItem(input, "clothing_image")
        case Err(e) => Err(e)
        case Ok(clothingValue) => (
          match DecodeBase64Image(lib, clothingValue)
          case Err(e) => Err(e)
          case Ok(clothing) => (
            match Get(input, "prompt", JStr(""))
            case Err(e) => Err(e)
            case Ok(prompt) => (
              match ProcessVirtualTryOn(pipe, person, clothing, prompt)
              case Err(e) => Err(e)
              case Ok(result) => EncodeImageToBase64(lib, result))))))
  }

  /** `"person_image" not in job_input or "clothing_image" not in job_input`,
      evaluated left to right; `in` raises for inputs that are not containers. */
  function HasRequiredInputs(input: Json): (r: Result<bool>)
    ensures input.JObject? ==> r == Ok("person_image" in input.fields && "clothing_image" in input.fields)
    ensures input.JStr? ==> r == Ok(IsSubstring("person_image", input.s) && IsSubstring("clothing_image", input.s))
    ensures input.JArray? ==> r == Ok(JStr("person_image") in input.items && JStr("clothing_image") in input.items)
    ensures r.Err? <==> !(input.JObject? || input.JStr? || input.JArray?)
  {
    match Contains(input, "person_image")
    case Err(e) => Err(e)
    case Ok(false) => Ok(false)
    case Ok(true) => Contains(input, "clothing_image")
  }

  /** `handler(job)`. A missing field yields a dict holding only the error
      text, with neither status nor processing time, and nothing is decoded;
      every later failure yields the error envelope; success yields exactly
      the result image, the processing time and status "success", which needs
      a loaded pipeline and a dict input. An input that is not a dict fails
      either at the membership test or, when it names both fields, at the
      subscript, each time as the error envelope. */
  function Handle(lib: ImageLibrary, pipe: Option<Pipeline>, job: map<string, Json>, elapsed: real): (r: Envelope)
    ensures r == map["error" := JStr(MissingInputs)] || IsErrorEnvelope(r, elapsed) || IsSuccessEnvelope(r, elapsed)
    ensures JobInput(job).JObject? ==>
      var fields := JobInput(job).fields;
      (r == map["error" := JStr(MissingInputs)] <==> "person_image" !in fields || "clothing_image" !in fields)
    ensures IsSuccessEnvelope(r, elapsed) ==> pipe.Some? && JobInput(job).JObject?
    ensures r == map["error" := JStr(MissingInputs)] <==> HasRequiredInputs(JobInput(job)) == Ok(false)
    ensures HasRequiredInputs(JobInput(job)).Err? ==>
      r == ErrorEnvelope(HasRequiredInputs(JobInput(job)).msg, elapsed)
    ensures HasRequiredInputs(JobInput(job)) == Ok(true) && !JobInput(job).JObject? ==>
      r == ErrorEnvelope(GetItem(JobInput(job), "person_image").msg, elapsed)
    ensures JobInput(job).JObject? && "person_image" in JobInput(job).fields && "clothing_image" in JobInput(job).fields ==>
      var fields := JobInput(job).fields;
      match DecodeBase64Image(lib, fields["person_image"])
      case Err(e) => r == ErrorEnvelope(e, elapsed)
      case Ok(_) =>
        match DecodeBase64Image(lib, fields["clothing_image"])
        case Err(e) => r == ErrorEnvelope(e, elapsed)
        case Ok(_) => pipe.None? ==> r == ErrorEnvelope(ModelNotLoaded, elapsed)
  {
    var input := JobInput(job);
    match HasRequiredInputs(input)
    case Err(e) => ErrorEnvelope(e, elapsed)
    case Ok(false) => map["error" := JStr(MissingInputs)]
    case Ok(true) =>
      match Run(lib, pipe, input)
      case Err(e) => ErrorEnvelope(e, elapsed)
      case Ok(encoded) => SuccessEnvelope(encoded, elapsed)
  }

  /** Once both images decode and a pipeline is loaded, a pipeline failure
      reaches the caller as the error envelope with the wrapped message. */
  lemma PipelineFailureIsWrapped(lib: ImageLibrary, generate: Pipeline, job: map<string, Json>,
                                 person: Image, clothing: Image, msg: string, elapsed: real)
    requires JobInput(job).JObject?
    requires "person_image" in JobInput(job).fields && "clothing_image" in JobInput(job).fields
    requires DecodeBase64Image(lib, JobInput(job).fields["person_image"]) == Ok(person)
    requires DecodeBase64Image(lib, JobInput(job).fields["clothing_image"]) == Ok(clothing)
    requires generate(EffectivePrompt(PromptOf(JobInput(job).fields)), Resize(person, 512, 768), Resize(clothing, 512, 512))
      == Err(msg)
    ensures Handle(lib, Some(generate), job, elapsed) == ErrorEnvelope(ProcessingFailedPrefix + msg, elapsed)
  {
    var input := JobInput(job);
    assert Get(input, "prompt", JStr("")) == Ok(PromptOf(input.fields));
    assert ProcessVirtualTryOn(Some(generate), person, clothing, PromptOf(input.fields))
      == Err(ProcessingFailedPrefix + msg);
    assert Run(lib, Some(generate), input) == Err(ProcessingFailedPrefix + msg);
  }

  /** Once both images decode and the pipeline answers, the envelope carries
      the bare base64 encoding of the pipeline's image, or the encoder's error. */
  lemma PipelineOutputIsEncoded(lib: ImageLibrary, generate: Pipeline, job: map<string, Json>,
                                person: Image, clothing: Image, out: Image, elapsed: real)
    requires JobInput(job).JObject?
    requires "person_image" in JobInput(job).fields && "clothing_image" in JobInput(job).fields
    requires DecodeBase64Image(lib, JobInput(job).fields["person_image"]) == Ok(person)
    requires DecodeBase64Image(lib, JobInput(job).fields["clothing_image"]) == Ok(clothing)
    requires generate(EffectivePrompt(PromptOf(JobInput(job).fields)), Resize(person, 512, 768), Resize(clothing, 512, 512))
      == Ok(out)
    ensures Handle(lib, Some(generate), job, elapsed) ==
      match EncodeImageToBase64(lib, out)
      case Ok(text) => SuccessEnvelope(text, elapsed)
      case Err(e) => ErrorEnvelope(e, elapsed)
  {
    var input := JobInput(job);
    assert Get(input, "prompt", JStr("")) == Ok(PromptOf(input.fields));
    assert ProcessVirtualTryOn(Some(generate), person, clothing, PromptOf(input.fields)) == Ok(out);
    assert Run(lib, Some(generate), input) == EncodeImageToBase64(lib, out);
  }

  /** End to end: two images sent as bare base64, with any prompt, give a
      success envelope whose image decodes to what the pipeline makes of the
      effective prompt and the two RGB images resized to 512x768 and 512x512. */
  lemma HandleRoundTrip(lib: ImageLibrary, generate: Pipeline, person: Image, clothing: Image,
                        prompt: Json, out: Image, elapsed: real)
    requires Lawful(lib)
    requires lib.savePng(person).Ok? && lib.savePng(clothing).Ok? && lib.savePng(out).Ok?
    requires generate(EffectivePrompt(prompt), Image(512, 768, "RGB"), Image(512, 512, "RGB")) == Ok(out)
    ensures var job := map["input" := JObject(map[
        "person_image" := JStr(EncodeImageToBase64(lib, person).value),
        "clothing_image" := JStr(EncodeImageToBase64(lib, clothing).value),
        "prompt" := prompt])];
      var r := Handle(lib, Some(generate), job, elapsed);
      && IsSuccessEnvelope(r, elapsed)
      && DecodeBase64Image(lib, r["result_image"]) == Ok(ConvertRgb(out))
  {
    DecodeInvertsEncode(lib, person);
    DecodeInvertsEncode(lib, clothing);
    DecodeInvertsEncode(lib, out);
    var job := map["input" := JObject(map[
        "person_image" := JStr(EncodeImageToBase64(lib, person).value),
        "clothing_image" := JStr(EncodeImageToBase64(lib, clothing).value),
        "prompt" := prompt])];
    assert PromptOf(JobInput(job).fields) == prompt;
    PipelineOutputIsEncoded(lib, generate, job, ConvertRgb(person), ConvertRgb(clothing), out, elapsed);
  }
}
