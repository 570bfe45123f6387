/** handler_ultra.py: a deployment smoke test. It checks that both image keys
    are present, one at a time, and answers with a fixed 1x1 PNG and the
    lengths of the two inputs. The one-second sleep is not modelled. */
module HandlerUltra {
  import opened Base
  import opened JsonData
  import opened Envelopes

  const MockResult := "iVBORw0KGgoAAAANSUhEUgAAAAEAAAABCAYAAAAfFcSJAAAADUlEQVR42mP8/5+hHgAHggJ/PchI7wAAAABJRU5ErkJggg=="
  const MissingPerson := "Missing person_image input"
  const MissingClothing := "Missing clothing_image input"
  const ReadyMessage := "Ultra-minimal handler working! Ready for full implementation."

  /** The validation answer: an error text and a status, no processing time. */
  function MissingEnvelope(msg: string): Envelope
  {
    map["error" := JStr(msg), "status" := JStr("error")]
  }

  /** `handler(job)`. Validation looks at key presence only, person_image
      first; a job without "input" counts as empty input. Any present values
      with a length reach the success answer, whose image is the fixed mock
      and whose `input_sizes` are the two lengths. A non-dict input fails at
      `.keys()` and a value without a length at `len`, both as error envelopes. */
  function Handle(job: map<string, Json>, elapsed: real): (r: Envelope)
    ensures "input" !in job ==> r == MissingEnvelope(MissingPerson)
    ensures !JobInput(job).JObject? ==>
      IsErrorEnvelope(r, elapsed) && r["error"] == JStr(NoAttribute(JobInput(job), "keys"))
    ensures JobInput(job).JObject? ==>
      var fields := JobInput(job).fields;
      && ("person_image" !in fields ==> r == MissingEnvelope(MissingPerson))
      && ("person_image" in fields && "clothing_image" !in fields ==> r == MissingEnvelope(MissingClothing))
      && ("person_image" in fields && "clothing_image" in fields ==>
            if Len(fields["person_image"]).Ok? && Len(fields["clothing_image"]).Ok? then
              && r.Keys == {"result_image", "processing_time", "status", "message", "input_sizes"}
              && r["result_image"] == JStr(MockResult)
              && r["status"] == JStr("success")
              && r["message"] == JStr(ReadyMessage)
              && r["processing_time"] == JFloat(elapsed)
              && r["input_sizes"] == JObject(map[
                   "person_image_length" := JInt(Len(fields["person_image"]).value),
                   "clothing_image_length" := JInt(Len(fields["clothing_image"]).value)])
            else if Len(fields["person_image"]).Err? then
              r == ErrorEnvelope(Len(fields["person_image"]).msg, elapsed)
            else r == ErrorEnvelope(Len(fields["clothing_image"]).msg, elapsed))
  {
    var input := JobInput(job);
    match Keys(input)
    case Err(e) => ErrorEnvelope(e, elapsed)
    case Ok(_) =>
      var fields := input.fields;
      if "person_image" !in fields then MissingEnvelope(MissingPerson)
      else if "clothing_image" !in fields then MissingEnvelope(MissingClothing)
      else
        // `job_input.get(key, "")` finds the key, which is known to be present
        match Len(fields["person_image"])
        case Err(e) => ErrorEnvelope(e, elapsed)
        case Ok(personLength) =>
          match Len(fields["clothing_image"])
          case Err(e) => ErrorEnvelope(e, elapsed)
          case Ok(clothingLength) =>
            map[
              "result_image" := JStr(MockResult),
              "processing_time" := JFloat(elapsed),
              "status" := JStr("success"),
              "message" := JStr(ReadyMessage),
              "input_sizes" := JObject(map[
                "person_image_length" := JInt(personLength),
                "clothing_image_length" := JInt(clothingLength)])]
  }

  /** Present string values, empty ones included, always reach the success
      answer: the handler never looks inside them. */
  lemma StringInputsSucceed(person: string, clothing: string, extra: map<string, Json>, elapsed: real)
    requires "person_image" !in extra && "clothing_image" !in extra
    ensures var job := map["input" := JObject(extra["person_image" := JStr(person)]["clothing_image" := JStr(clothing)])];
      && Handle(job, elapsed)["status"] == JStr("success")
      && Handle(job, elapsed)["input_sizes"] == JObject(map["person_image_length" := JInt(|person|), "clothing_image_length" := JInt(|clothing|)])
  {
    var fields := extra["person_image" := JStr(person)]["clothing_image" := JStr(clothing)];
    assert fields["person_image"] == JStr(person);
  }
}
