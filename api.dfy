/** backend/main.py: the two process-wide models, the guards that refuse
    inference before they are loaded, the health report, the result of one
    uploaded image and the batch endpoint that collects one entry per file.
    Decoding (PIL), resizing and scaling (cv2, `preprocess_input`) and the
    two Keras `predict` calls are foreign: images are opaque, and each
    model is the function it computes. */
module VexoApi {
  import opened Common
  import opened Text
  import opened Decision

  /** The batch cap as the code tests it (`len(files) > 100`); the comment
      and the error detail both say 10. */
  const MAX_FILES := 100
  const TOO_MANY_FILES := "Maximum 10 files allowed per request"
  const NOT_AN_IMAGE := "File must be an image"
  const IMAGE_MIME_PREFIX := "image/"
  const ERROR_PREFIX := "Error processing image: "

  const XCEPTION_MISSING := "Xception model not initialized"
  const CLASSIFIER_MISSING := "Classification model not initialized"
  const NO_FEATURE_INPUT := "One of pil_image or image_array must be provided"
  const NO_PREPROCESS_INPUT := "Either image_array or pil_image must be provided."
  const MODEL_FILE_MISSING :=
    "Model file 'vexo_v4_2.keras' not found. Please ensure the model file exists in the current directory."

  /** The Xception network: the 299x299 input batch to its embedding. */
  type FeatureExtractor = Tensor -> Result<Features, Exception>
  /** The trained classifier: an embedding to a score. */
  type Classifier = Features -> Result<real, Exception>
  /** PIL's `Image.open` followed by the RGB conversion. */
  type Decoder = Bytes -> Result<Image, Exception>

  /** The input batch built by `load_and_preprocess_image`, recorded by the
      input it was built from: a numpy array or a PIL image. The RGB to BGR
      swap (only for a 3-channel PIL image), the resize and the scaling are
      foreign pixel arithmetic. */
  datatype Tensor = FromArray(array: Image) | FromPil(pil: Image)

  /** An uploaded multipart file: its name, declared content type and bytes. */
  datatype UploadFile = UploadFile(filename: string, contentType: string, contents: Bytes)

  /** One element of the batch response: a result dictionary, or
      `{filename, error}`. */
  datatype Entry = Validated(result: Validation) | Failed(filename: string, error: string)

  /** The health report `{status, models_loaded}`. */
  datatype Health = Health(status: string, modelsLoaded: bool)

  function EntryFilename(e: Entry): string
  {
    match e
    case Validated(v) => v.filename
    case Failed(name, _) => name
  }

  predicate IsImage(file: UploadFile)
  {
    StartsWith(file.contentType, IMAGE_MIME_PREFIX)
  }

  /** `load_and_preprocess_image`: the array takes precedence over the PIL
      image; with neither, a ValueError. */
  function LoadAndPreprocessImage(imageArray: Option<Image>, pilImage: Option<Image>): (r: Result<Tensor, Exception>)
    ensures r.Err? <==> imageArray.None? && pilImage.None?
    ensures r.Err? ==> r.error == ValueError(NO_PREPROCESS_INPUT)
    ensures imageArray.Some? ==> r == Ok(FromArray(imageArray.value))
    ensures imageArray.None? && pilImage.Some? ==> r == Ok(FromPil(pilImage.value))
  {
    if imageArray.Some? then Ok(FromArray(imageArray.value))
    else if pilImage.Some? then Ok(FromPil(pilImage.value))
    else Err(ValueError(NO_PREPROCESS_INPUT))
  }

  /** The indices of the image files among the first `n`, in increasing
      order: the files the batch endpoint hands to processing. */
  function ImageIndices(files: seq<UploadFile>, n: nat): (r: seq<nat>)
    requires n <= |files|
    ensures forall k: nat :: k in r <==> k < n && IsImage(files[k])
    ensures forall a, b :: 0 <= a < b < |r| ==> r[a] < r[b]
  {
    if n == 0 then []
    else
      var before := ImageIndices(files, n - 1);
      assert forall a :: 0 <= a < |before| ==> before[a] in before;
      before + (if IsImage(files[n - 1]) then [n - 1] else [])
  }

  /** The global `xception_model` and `classification_model`, each absent
      until `initialize_models` loads it. */
  class ModelRegistry {
    var xception: Option<FeatureExtractor>
    var classifier: Option<Classifier>

    /** Module start: both globals are None. */
    constructor ()
      ensures xception.None? && classifier.None?
    {
      xception := None;
      classifier := None;
    }

    /** `initialize_models`. Building Xception and loading the Keras file
        are foreign: `xceptionLoad` and `classifierLoad` are their outcomes
        and `modelFileExists` the `os.path.exists` test. The first failure
        is returned (Python re-raises it); what was assigned before it stays. */
    method InitializeModels(
      xceptionLoad: Result<FeatureExtractor, Exception>,
      modelFileExists: bool,
      classifierLoad: Result<Classifier, Exception>) returns (err: Option<Exception>)
      modifies this
      ensures xceptionLoad.Err? ==>
                err == Some(xceptionLoad.error) && xception == old(xception) && classifier == old(classifier)
      ensures xceptionLoad.Ok? ==> xception == Some(xceptionLoad.value)
      ensures xceptionLoad.Ok? && !modelFileExists ==>
                err == Some(FileNotFoundError(MODEL_FILE_MISSING)) && classifier == old(classifier)
      ensures xceptionLoad.Ok? && modelFileExists && classifierLoad.Err? ==>
                err == Some(classifierLoad.error) && classifier == old(classifier)
      ensures xceptionLoad.Ok? && modelFileExists && classifierLoad.Ok? ==>
                err == None && classifier == Some(classifierLoad.value)
      ensures err.None? ==> HealthCheck().modelsLoaded
    {
      if xceptionLoad.Err? {
        return Some(xceptionLoad.error);
      }
      xception := Some(xceptionLoad.value);
      if !modelFileExists {
        return Some(FileNotFoundError(MODEL_FILE_MISSING));
      }
      if classifierLoad.Err? {
        return Some(classifierLoad.error);
      }
      classifier := Some(classifierLoad.value);
      err := None;
    }

    /** `health_check`: loaded means both models are present, and the
        status is "healthy" exactly then. */
    function HealthCheck(): (h: Health)
      reads this
      ensures h.modelsLoaded <==> xception.Some? && classifier.Some?
      ensures h.status == "healthy" <==> h.modelsLoaded
      ensures !h.modelsLoaded ==> h.status == "unhealthy"
    {
      var loaded := xception.Some? && classifier.Some?;
      Health(if loaded then "healthy" else "unhealthy", loaded)
    }

    /** `extract_features`: the missing-model RuntimeError is raised before
        the arguments are looked at; the PIL image takes precedence over
        the array. */
    function ExtractFeatures(imageArray: Option<Image>, pilImage: Option<Image>): (r: Result<Features, Exception>)
      reads this
      ensures xception.None? ==> r == Err(RuntimeError(XCEPTION_MISSING))
      ensures xception.Some? && imageArray.None? && pilImage.None? ==> r == Err(ValueError(NO_FEATURE_INPUT))
      ensures xception.Some? && pilImage.Some? ==> r == xception.value(FromPil(pilImage.value))
      ensures xception.Some? && pilImage.None? && imageArray.Some? ==> r == xception.value(FromArray(imageArray.value))
    {
      match xception
      case None => Err(RuntimeError(XCEPTION_MISSING))
      case Some(model) =>
        var input :=
          if pilImage.Some? then LoadAndPreprocessImage(None, pilImage)
          else if imageArray.Some? then LoadAndPreprocessImage(imageArray, None)
          else Err(ValueError(NO_FEATURE_INPUT));
        match input
        case Err(e) => Err(e)
        case Ok(tensor) => model(tensor)
    }

    /** `predict_image_validity`: refuses without the classifier. */
    function PredictImageValidity(features: Features): (r: Result<real, Exception>)
      reads this
      ensures classifier.None? ==> r == Err(RuntimeError(CLASSIFIER_MISSING))
      ensures classifier.Some? ==> r == classifier.value(features)
    {
      match classifier
      case None => Err(RuntimeError(CLASSIFIER_MISSING))
      case Some(model) => model(features)
    }

    /** `process_uploaded_image`: decode, extract, predict, decide; any
        exception becomes a 400 whose detail carries its message. */
    function ProcessUploadedImage(file: UploadFile, decode: Decoder): (r: Result<Validation, HttpError>)
      reads this
      ensures r.Err? ==> r.error.status == 400 && StartsWith(r.error.detail, ERROR_PREFIX)
      ensures decode(file.contents).Err? ==>
                r == Err(HttpError(400, ERROR_PREFIX + decode(file.contents).error.message))
      ensures !HealthCheck().modelsLoaded ==> r.Err?
      ensures r.Ok? ==> Consistent(r.value) && r.value.filename == file.filename && r.value.drive.None?
      ensures r.Ok? ==>
                && decode(file.contents).Ok?
                && var features := ExtractFeatures(None, Some(decode(file.contents).value));
                && features.Ok? && PredictImageValidity(features.value) == Ok(r.value.score)
      ensures decode(file.contents).Ok? ==>
                var features := ExtractFeatures(None, Some(decode(file.contents).value));
                match features
                case Err(e) => r == Err(HttpError(400, ERROR_PREFIX + e.message))
                case Ok(f) =>
                  match PredictImageValidity(f)
                  case Err(e) => r == Err(HttpError(400, ERROR_PREFIX + e.message))
                  case Ok(score) => r == Ok(Decide(file.filename, score, None))
    {
      match decode(file.contents)
      case Err(e) => Err(HttpError(400, ERROR_PREFIX + e.message))
      case Ok(image) =>
        match ExtractFeatures(None, Some(image))
        case Err(e) => Err(HttpError(400, ERROR_PREFIX + e.message))
        case Ok(features) =>
          match PredictImageValidity(features)
          case Err(e) => Err(HttpError(400, ERROR_PREFIX + e.message))
          case Ok(score) => Ok(Decide(file.filename, score, None))
    }

    /** `validate_single_image`: a non-image content type is refused with
        400 before anything is read. */
    function ValidateSingleImage(file: UploadFile, decode: Decoder): (r: Result<Validation, HttpError>)
      reads this
      ensures !IsImage(file) ==> r == Err(HttpError(400, NOT_AN_IMAGE))
      ensures IsImage(file) ==> r == ProcessUploadedImage(file, decode)
    {
      if !IsImage(file) then Err(HttpError(400, NOT_AN_IMAGE))
      else ProcessUploadedImage(file, decode)
    }

    /** The entry the batch endpoint appends for one file. */
    function BatchEntry(file: UploadFile, decode: Decoder): (e: Entry)
      reads this
      ensures EntryFilename(e) == file.filename
      ensures !IsImage(file) ==> e == Failed(file.filename, NOT_AN_IMAGE)
      ensures IsImage(file) ==>
                match ProcessUploadedImage(file, decode)
                case Ok(v) => e == Validated(v)
                case Err(http) => e == Failed(file.filename, http.detail)
    {
      if !IsImage(file) then Failed(file.filename, NOT_AN_IMAGE)
      else match ProcessUploadedImage(file, decode)
        case Ok(v) => Validated(v)
        case Err(http) => Failed(file.filename, http.detail)
    }

    /** The entries of the first `n` files, in order. */
    function BatchEntries(files: seq<UploadFile>, decode: Decoder, n: nat): (r: seq<Entry>)
      reads this
      requires n <= |files|
      ensures |r| == n
      ensures forall k :: 0 <= k < n ==> r[k] == BatchEntry(files[k], decode)
    {
      if n == 0 then [] else BatchEntries(files, decode, n - 1) + [BatchEntry(files[n - 1], decode)]
    }

    /** `validate_multiple_images`. More than MAX_FILES files are refused
        before any is processed; otherwise one entry per file, in order,
        with errors kept in place. `invoked` lists the files handed to
        `process_uploaded_image`, in the order they were. */
    method ValidateMultipleImages(files: seq<UploadFile>, decode: Decoder)
      returns (r: Result<seq<Entry>, HttpError>, invoked: seq<nat>)
      ensures r.Err? <==> |files| > MAX_FILES
      ensures r.Err? ==> r.error == HttpError(400, TOO_MANY_FILES) && invoked == []
      ensures r.Ok? ==> r.value == BatchEntries(files, decode, |files|)
      ensures r.Ok? ==> invoked == ImageIndices(files, |files|)
    {
      if |files| > MAX_FILES {
        return Err(HttpError(400, TOO_MANY_FILES)), [];
      }
      var results: seq<Entry> := [];
      invoked := [];
      for i := 0 to |files|
        invariant results == BatchEntries(files, decode, i)
        invariant invoked == ImageIndices(files, i)
      {
        var file := files[i];
        if !IsImage(file) {
          results := results + [Failed(file.filename, NOT_AN_IMAGE)];
          continue;
        }
        invoked := invoked + [i];
        var processed := ProcessUploadedImage(file, decode);
        match processed {
          case Ok(v) =>
            results := results + [Validated(v)];
          case Err(http) =>
            results := results + [Failed(file.filename, http.detail)];
        }
      }
      r := Ok(results);
    }
  }

  /** Every batch entry carries the filename of the file at its position. */
  lemma BatchKeepsFilenames(reg: ModelRegistry, files: seq<UploadFile>, decode: Decoder, entries: seq<Entry>)
    requires |entries| == |files|
    requires forall i :: 0 <= i < |files| ==> entries[i] == reg.BatchEntry(files[i], decode)
    ensures forall i :: 0 <= i < |files| ==> EntryFilename(entries[i]) == files[i].filename
  {
  }

  /** With a model missing, every upload is refused: a single image with a
      400, and every entry of a batch as an error entry. */
  lemma UnhealthyRefusesAll(reg: ModelRegistry, file: UploadFile, decode: Decoder)
    requires !reg.HealthCheck().modelsLoaded
    ensures reg.ValidateSingleImage(file, decode).Err?
    ensures reg.BatchEntry(file, decode).Failed?
  {
  }
}
