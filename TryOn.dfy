/** The synthesis step shared by handler.py and app.py: `preprocess_images` and
    `process_virtual_tryon`. app.py:66-100 inlines the same resizes and has the
    same branches, so both entry points use these definitions. The loaded
    pipeline (the module-global `pipe`) is a parameter: None until a model is
    loaded. */
module TryOn {
  import opened Base
  import opened JsonData
  import opened Imaging

  const DefaultPrompt := "photorealistic, high quality, detailed clothing, perfect fit, natural lighting, professional photography"
  const ModelNotLoaded := "Model not loaded"
  const ProcessingFailedPrefix := "Virtual try-on processing failed: "

  /** `preprocess_images`: the person image becomes 512x768 and the clothing
      image 512x512, whatever their sizes were; modes are kept. */
  function PreprocessImages(person: Image, clothing: Image): (r: (Image, Image))
    ensures r.0.width == 512 && r.0.height == 768 && r.0.mode == person.mode
    ensures r.1.width == 512 && r.1.height == 512 && r.1.mode == clothing.mode
  {
    (Resize(person, 512, 768), Resize(clothing, 512, 512))
  }

  /** `if not prompt: prompt = <default>`: the prompt handed on is never falsy,
      and a truthy prompt is passed through untouched. */
  function EffectivePrompt(prompt: Json): (r: Json)
    ensures Truthy(r)
    ensures Truthy(prompt) ==> r == prompt
    ensures !Truthy(prompt) ==> r == JStr(DefaultPrompt)
  {
    if Truthy(prompt) then prompt else JStr(DefaultPrompt)
  }

  /** `process_virtual_tryon`: with no pipeline the error is raised before the
      `try`, so it is not wrapped; a pipeline failure is re-raised with the
      "Virtual try-on processing failed: " prefix; otherwise the pipeline's
      image is returned. */
  function ProcessVirtualTryOn(pipe: Option<Pipeline>, person: Image, clothing: Image, prompt: Json): (r: Result<Image>)
    ensures pipe.None? ==> r == Err(ModelNotLoaded)
    ensures pipe.Some? ==>
      var (p, c) := PreprocessImages(person, clothing);
      var out := pipe.value(EffectivePrompt(prompt), p, c);
      && (r.Ok? <==> out.Ok?)
      && (r.Ok? ==> r == out)
      && (r.Err? ==> r.msg == ProcessingFailedPrefix + out.msg)
    ensures r.Err? ==> r.msg == ModelNotLoaded || StartsWith(r.msg, ProcessingFailedPrefix)
  {
    match pipe
    case None => Err(ModelNotLoaded)
    case Some(generate) =>
      var (p, c) := PreprocessImages(person, clothing);
      match generate(EffectivePrompt(prompt), p, c)
      case Ok(result) => Ok(result)
      case Err(e) => Err(ProcessingFailedPrefix + e)
  }
}
