# Kolors virtual try-on: request handling and image geometry in Dafny

This project models the request-handling core of the Kolors virtual try-on service. There are three entry points:
- two RunPod job handlers, `handler.py` (in front of the diffusion pipeline) and `handler_simple.py` (an alpha blend stands in for the model);
- the Flask endpoint `POST /api/try-on` with `GET /health` in `app.py`.

It also models the deployment smoke test `handler_ultra.py` and two image helpers from `utils/image_utils.py`: the letterboxing `resize_with_aspect_ratio` and `validate_image`.

How the model represents the source:
- **JSON input.** The job's `input` and the Flask body are arbitrary decoded JSON (`JsonData.Json`). Non-dict inputs follow Python's semantics: `in` on a string or a list, subscripting, `.get`, `.keys()`, `len`. The errors Python raises become the messages `str(e)` gives (CPython 3.11).
- **Exceptions.** An exception is a `Result.Err(msg)`. Each handler's `try`/`except` turns it into the error envelope.
- **Envelopes.** They are maps from key to JSON value, so which keys are present is part of every contract.
- **Libraries.** The image libraries are function values the caller supplies: base64, PNG writing, `Image.open`, the LANCZOS resampler and the diffusion pipeline. The laws the round-trip lemmas and the letterbox rely on are stated once, in `Imaging.Lawful` and `ImageUtils.KeepsRequestedSize`.
- **Global `pipe`.** It is an `Option` parameter; `None` means no model is loaded.
- **Shared code.** `decode_base64_image` is identical in `handler.py:41-52`, `handler_simple.py:8-18` and `app.py:47-57`, and is modelled once as `Codec.DecodeBase64Image`. Likewise, `app.py:66-100` repeats `handler.py:61-103`, so both entry points use `TryOn.ProcessVirtualTryOn`.

Two behaviours of the code are worth noting:
- Unlike their exception envelopes, the missing-field answer of `handler.py` and `app.py` holds only the error text, with no `status` and no `processing_time`. In `handler_simple.py` it has a status but no processing time.
- `decode_base64_image` keeps only the text between the first and the second comma of a `data:image` string, not everything after the first comma. `Codec.StripKeepsSecondField` states this.

## Model

| member | source | states |
|---|---|---|
| JsonData.Contains | handler.py:114 | `key in v`: for a dict, Ok exactly when the key is present. Only dicts, strings and lists support `in`; every other type raises. |
| JsonData.GetItem | handler.py:121-122 | `v[key]` succeeds only on a dict, and on a dict holding the key it yields that key's value. |
| JsonData.Get | handler.py:125 | `v.get(key, default)` fails exactly on non-dicts. On a dict it yields the key's value, or the default when the key is absent. |
| JsonData.Keys | handler_simple.py:45 | `v.keys()` succeeds exactly on a dict. |
| JsonData.TruthyMeansNonEmpty | app.py:115 | `not v` on a string, list or dict holds exactly when its length is zero, and `None` is always falsy. |
| JsonData.Len | handler_ultra.py:30-31 | `len(v)` succeeds exactly on strings, lists and dicts, and gives a string's length. |
| Imaging.ConvertRgb | handler.py:50 | `convert('RGB')` keeps the size and sets the mode to RGB. |
| Imaging.Resize | handler.py:66-67 | A resize to a positive size gives exactly that size and keeps the mode. |
| Imaging.Blend | handler_simple.py:34 | `Image.blend` succeeds exactly when both images agree in size and mode, and then has that size and mode. |
| Codec.Split | handler.py:46 | `s.split(',')`: at least one field, no field holds a comma, the fields rejoined give `s`, and there is a single field exactly when `s` has no comma. |
| Codec.SplitJoin | handler.py:46 | Splitting comma-free fields joined with commas gives the fields back. |
| Codec.StripDataUrlPrefix | handler.py:45-46 | A string not starting with "data:image" is kept. One starting with it succeeds exactly when it holds a comma, giving a shorter comma-free field; otherwise it fails with "list index out of range". |
| Codec.StripKeepsSecondField | handler.py:45-46 | For `head,field[,rest]` with a data:image head, the strip yields exactly `field`. |
| Codec.DecodePayload | handler.py:48-52 | A base64 or open failure gives "Invalid base64 image: " followed by that library's message. A decoded image is the opened image converted to RGB. |
| Codec.DecodeBase64Image | handler.py:41-52 | Every failure starts with "Invalid base64 image: ". A non-string fails at `startswith`. A data:image string without a comma fails with the index error; with one, its second field is decoded. Any other string is decoded as is. Success means a string input and an RGB image. |
| Codec.EncodeImageToBase64 | handler.py:54-59 | Succeeds exactly when the PNG save does, giving the base64 of the PNG bytes; a save failure is passed on with its own message. Under the library laws, the text is base64, never starts with "data:image", and passes the prefix strip unchanged. |
| Codec.Base64TextIsNotDataUrl | handler.py:45 | Base64 text holds no comma and never starts with "data:image". |
| Codec.DecodeInvertsEncode | handler.py:41-59 | Decoding the bare encoding of an image gives that image back, converted to RGB. |
| ImageUtils.FitSize | utils/image_utils.py:59-81 | Fails with "division by zero" exactly when the image height or the target height is zero. |
| ImageUtils.CompareRatios | utils/image_utils.py:63-66 | The floating aspect-ratio comparison equals the cross-multiplied integer comparison. |
| ImageUtils.HeightForWidthIsQuotient | utils/image_utils.py:69 | `int(target_width / aspect_ratio)` equals the floor quotient `target_width * height / width`. |
| ImageUtils.WidthForHeightIsQuotient | utils/image_utils.py:73 | `int(target_height * aspect_ratio)` equals the floor quotient `target_height * width / height`. |
| ImageUtils.FitSizeIsIntegerFit | utils/image_utils.py:59-81 | The fit computed as the Python reads equals the all-integer reference fit, for every input that does not divide by zero. |
| ImageUtils.FitMatchesOneSide | utils/image_utils.py:66-73 | A relatively wider image gets the target width and a height within the target height. Any other image, equal ratios included, gets the target height and a width within the target width. |
| ImageUtils.FitIsCentred | utils/image_utils.py:80-81 | The offsets are non-negative and the block lies inside the target. On each axis the far margin equals the near one or exceeds it by one pixel. |
| ImageUtils.Canvas.New | utils/image_utils.py:79 | `Image.new` gives a fresh canvas of the given mode and size with every pixel set to the colour. |
| ImageUtils.Canvas.Paste | utils/image_utils.py:82 | `paste` overwrites exactly the canvas pixels the block covers, clipped to the canvas, with the block's pixels. All other pixels keep their old values. |
| ImageUtils.ResizeWithAspectRatio | utils/image_utils.py:57-84 | A zero height or a failed resize is passed on as the error. Otherwise the result is a fresh RGB canvas of the target size. It is white outside the block, holds every resized pixel at the centring offsets, and the block fits inside it. |
| ImageUtils.ValidateImage | utils/image_utils.py:102-115 | Ok (always `True`) exactly when both sides lie within the inclusive bounds and the mode is RGB or RGBA. Too small is reported before too large, each with the bound in the message, and a wrong mode within the bounds gives "Image must be in RGB or RGBA format". |
| ImageUtils.DefaultBoundsAreInclusive | utils/image_utils.py:102-110 | With the default bounds, 256x256 and 2048x2048 are accepted. 255 wide is refused naming "(256, 256)", and 2049 high naming "(2048, 2048)". |
| TryOn.PreprocessImages | handler.py:61-69 | The person image becomes 512x768 and the clothing image 512x512, whatever their sizes; modes are kept. |
| TryOn.EffectivePrompt | handler.py:83-84 | The prompt passed on is never falsy. A truthy prompt is passed untouched; a falsy one becomes the fixed default prompt. |
| TryOn.ProcessVirtualTryOn | handler.py:71-103 | With no model it fails with "Model not loaded", unwrapped. Otherwise it succeeds exactly when the pipeline does, on the preprocessed images and effective prompt, returning the pipeline's image. A pipeline error is wrapped with "Virtual try-on processing failed: ". |
| Envelopes.JobInput | handler.py:111 | The job's input is exactly what `job.get("input", {})` gives, and a job without one has an empty, falsy dict as input. |
| Envelopes.PromptOf | handler.py:125 | The prompt is exactly what `.get("prompt", "")` gives on the dict input. |
| Envelopes.ErrorEnvelope | handler.py:148-152 | Exactly the keys error, processing_time and status, with status "error" and the given message. |
| Envelopes.SuccessEnvelope | handler.py:137-141 | Exactly the keys result_image, processing_time and status, with status "success" and the given image. |
| HandlerUltra.Handle | handler_ultra.py:6-64 | No input means "Missing person_image input". A non-dict input gives the `.keys()` error envelope. person_image is checked before clothing_image. Two values with a length give the mock image, the fixed ready message and both lengths. Otherwise the error envelope carries the `len` error of the person value, or failing that of the clothing value. |
| HandlerUltra.StringInputsSucceed | handler_ultra.py:17-53 | Any two present strings, empty ones included, reach success with their lengths reported. |
| Handler.HasRequiredInputs | handler.py:114 | For a dict, both keys are present; for a string, both names occur in it; for a list, both names are elements. Only dicts, strings and lists can be asked. |
| Handler.Run | handler.py:119-133 | A result is produced only with a loaded pipeline and a dict input. Any other input fails with the subscript error of `job_input["person_image"]`. |
| Handler.Handle | handler.py:105-152 | The answer is the bare missing-field dict, an error envelope or a success envelope. The bare dict comes back exactly when the membership test finds a field missing; for a dict input, exactly when a key is absent. An input `in` cannot search gives the error envelope with its TypeError. A string or list naming both fields gives the error envelope with the subscript TypeError. Success needs a loaded pipeline and a dict input. Decode failures and "Model not loaded" come back as error envelopes, in source order. |
| Handler.PipelineFailureIsWrapped | handler.py:119-152 | Once both images decode, a pipeline failure on the effective prompt and the 512x768 and 512x512 images gives the error envelope with "Virtual try-on processing failed: " and the pipeline's message. |
| Handler.PipelineOutputIsEncoded | handler.py:119-152 | Once both images decode and the pipeline answers that call, the answer is the success envelope holding the bare base64 of the pipeline's image, or the error envelope with the encoder's error. |
| Handler.HandleRoundTrip | handler.py:105-141 | Two images sent as bare base64 with any prompt give a success envelope. Its image decodes to what the pipeline returns for the effective prompt and the two images resized to 512x768 and 512x512 in RGB. |
| HandlerSimple.SimpleImageBlend | handler_simple.py:27-35 | Images of one mode blend to a 512x768 image of that mode, whatever their sizes. Different modes fail. |
| HandlerSimple.Run | handler_simple.py:54-68 | Succeeds exactly when both images decode and the 512x768 RGB blend saves, giving that blend's base64. The person image's decode error comes first, then the clothing image's. |
| HandlerSimple.Handle | handler_simple.py:37-88 | A non-dict input gives the `.keys()` error envelope, and a missing field the error text with status "error". Then the person image's decode error, then the clothing image's, then the encoder's each give the error envelope. Otherwise the success answer holds the encoded 512x768 RGB blend and the fixed message. |
| HandlerSimple.HandleRoundTrip | handler_simple.py:37-77 | Two images of any sizes sent as bare base64 give success, and the result decodes to a 512x768 RGB image. |
| App.EncodeImageToDataUrl | app.py:59-64 | Succeeds exactly when the PNG save does, giving "data:image/png;base64," followed by the bare encoding; a save failure is passed on with its own message. |
| App.StripRecoversPayload | app.py:50-51 | Stripping the decoder's prefix from the web encoding yields exactly the bare base64 payload. |
| App.DecodeInvertsDataUrl | app.py:47-64 | Decoding the web encoding of an image gives the image back, converted to RGB. |
| App.MissingRequired | app.py:115 | A falsy body is turned away. A dict is turned away exactly when a field is missing; a truthy string or list when a name does not occur in it. Any other truthy body raises. |
| App.Run | app.py:120-131 | A result is produced only with a loaded pipeline, and it starts with the data-URL prefix. A body that is not a dict fails with the subscript error of `data['person_image']`. |
| App.ApiTryOn | app.py:107-149 | The code is 200, 400 or 500. 400, with only the error text, comes exactly when the validation test turns the body away: an empty body, or a dict missing a field. A truthy body `in` cannot search gives 500 with its TypeError. A string or list naming both fields gives 500 with the subscript TypeError. 500 carries the error envelope; decode failures and "Model not loaded" come first, in source order. 200 carries the success envelope with a data-URL image and needs a loaded pipeline. |
| App.PipelineFailureIsWrapped | app.py:120-149 | Once both images decode, a pipeline failure on the effective prompt and the 512x768 and 512x512 images gives 500. The error envelope holds "Virtual try-on processing failed: " and the pipeline's message. |
| App.PipelineOutputIsEncoded | app.py:120-149 | Once both images decode and the pipeline answers that call, the answer is 200 with the data-URL encoding of the pipeline's image, or 500 with the encoder's error. |
| App.ApiTryOnRoundTrip | app.py:107-139 | Two images sent as data URLs with any prompt give 200. The image decodes to what the pipeline returns for the effective prompt and the two images resized to 512x768 and 512x512 in RGB. |
| App.HealthCheck | app.py:151-158 | Exactly status "healthy", `model_loaded` true when a pipeline is loaded and false otherwise, and the device "cuda" or "cpu". |

## Left out

- Model loading (`load_model` in handler.py and app.py), torch, CUDA autocast, the seeded generator, the negative prompt and the inference parameters are not modelled. The loaded pipeline is an opaque function that may fail, and whether a GPU exists is a parameter.
- The pixel numerics of LANCZOS resampling, `Image.blend` and the mode conversion in `paste` are not modelled. The resampler is an opaque function, and `Image` records only size and mode.
- The base64 and PNG codecs and `Image.open` are opaque functions. Their laws are the requires of the round-trip lemmas.
- The other helpers in utils/image_utils.py (`preprocess_person_image`, `preprocess_clothing_image`, `create_mask`, `enhance_result_image`) are not modelled. They only call OpenCV and ImageEnhance, and no handler calls them.
- Elapsed time, the `round(..., 2)` of it, `time.sleep(1)` and the `print`/logging output are not modelled. The rounded processing time is a parameter.
- The Flask routing, `jsonify`, `request.get_json()` parsing, the index page, static files, the upload size limit and RunPod's `serverless.start` are not modelled. The request body is the already decoded JSON value.
- `health_check` of handler_simple.py is not modelled, because its only non-constant content is the clock reading.
- The RunPod job itself is always a dict. A job that is not a dict is not modelled.
- ImageUtils.FitSize: computes with exact rationals, not IEEE doubles. The two can differ only where a ratio comparison or a truncation lands within rounding error of a boundary.
- ImageUtils.FitSize: sizes are natural numbers, so a negative target size, which `Image.new` would refuse, is not modelled; no caller passes one.
- ImageUtils.ResizeWithAspectRatio: a zero-sized resize is refused by the opaque resampler rather than by a modelled PIL rule. The letterbox canvas is always RGB white, and the block's pixels are copied unconverted.
- Imaging.Blend: states only the documented same-size, same-mode rule; Pillow's further refusals (palette, "1" and non-8-bit images) and its acceptance of different modes with equal band counts are not modelled. Only two RGB images ever reach it.
- Library error texts other than Python's own (`binascii`, PIL, the pipeline) are whatever the opaque function returns. `Imaging.Blend` uses a fixed placeholder text.
