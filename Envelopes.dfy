/** Response envelopes as the dicts the handlers return, and the RunPod job
    shape they read. Only the keys and values are modelled; `processing_time`
    is supplied by the caller as the already rounded elapsed time. */
module Envelopes {
  import opened Base
  import opened JsonData

  type Envelope = map<string, Json>

  const MissingInputs := "Missing required inputs: person_image and clothing_image"

  /** `job.get("input", {})` for the dict a RunPod job is. */
  function JobInput(job: map<string, Json>): (r: Json)
    ensures Get(JObject(job), "input", JObject(map[])) == Ok(r)
    ensures "input" !in job ==> !Truthy(r) && r.JObject?
  {
    if "input" in job then job["input"] else JObject(map[])
  }

  /** The optional prompt of a dict input, `.get("prompt", "")`. */
  function PromptOf(fields: map<string, Json>): (r: Json)
    ensures Get(JObject(fields), "prompt", JStr("")) == Ok(r)
  {
    if "prompt" in fields then fields["prompt"] else JStr("")
  }

  function ErrorEnvelope(msg: string, elapsed: real): (r: Envelope)
    ensures IsErrorEnvelope(r, elapsed) && r["error"] == JStr(msg)
  {
    map["error" := JStr(msg), "processing_time" := JFloat(elapsed), "status" := JStr("error")]
  }

  function SuccessEnvelope(resultImage: string, elapsed: real): (r: Envelope)
    ensures IsSuccessEnvelope(r, elapsed) && r["result_image"] == JStr(resultImage)
  {
    map["result_image" := JStr(resultImage), "processing_time" := JFloat(elapsed), "status" := JStr("success")]
  }

  /** `{error, processing_time, status: "error"}` and nothing else. */
  predicate IsErrorEnvelope(r: Envelope, elapsed: real)
  {
    && r.Keys == {"error", "processing_time", "status"}
    && r["error"].JStr?
    && r["processing_time"] == JFloat(elapsed)
    && r["status"] == JStr("error")
  }

  /** `{result_image, processing_time, status: "success"}` and nothing else. */
  predicate IsSuccessEnvelope(r: Envelope, elapsed: real)
  {
    && r.Keys == {"result_image", "processing_time", "status"}
    && r["result_image"].JStr?
    && r["processing_time"] == JFloat(elapsed)
    && r["status"] == JStr("success")
  }
}
