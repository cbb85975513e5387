/**
 The server's sign-detection path: `preprocess_image` (data-URL prefix
 strip and centre crop) and the `detect_sign` handler (ordered error
 checks and result routing). Decoding, the classifier and all
 floating-point work are parameters: `decode` yields the decoded image's
 size or None when base64 or image decoding fails, and `predict` yields
 the arg-max class index and its confidence for a crop.
 */
module ServerDetect {
  import opened Wrappers
  import opened Sequences
  import opened ServerRooms

  /** Size of a decoded image (the first two entries of its array shape). */
  datatype Dims = Dims(width: nat, height: nat)

  /** The slice `image[startY:endY, startX:endX]` taken before resizing. */
  datatype Crop = Crop(startX: int, startY: int, endX: int, endY: int)

  /** The classifier's pick: arg-max index and its score. */
  datatype Prediction = Prediction(index: nat, confidence: real)

  /** A `detect_sign` payload: the `image` and `roomId` keys, each possibly absent. */
  datatype DetectRequest = DetectRequest(image: Option<string>, roomId: Option<RoomId>)

  /** The four failures `detect_sign` reports, in the order it checks them. */
  datatype Failure = ModelNotLoaded | NoImageData | PreprocessingFailed | InvalidPrediction

  datatype Verdict = Failed(failure: Failure) | Classified(sign: string, confidence: real)

  function Min(a: nat, b: nat): nat
  {
    if a <= b then a else b
  }

  function Message(f: Failure): string
  {
    match f
    case ModelNotLoaded => "Model not loaded"
    case NoImageData => "No image data received"
    case PreprocessingFailed => "Image preprocessing failed"
    case InvalidPrediction => "Invalid prediction"
  }

  /**
   Drops a data-URL header: with a comma present, what lies between the
   first comma and the next one (or the end); without one, the input.
   */
  function StripDataUrl(image: string): (r: string)
    ensures ',' !in image ==> r == image
    ensures ',' in image ==>
      var start := FirstIndex(image, ',') + 1;
      && ',' !in r
      && start + |r| <= |image|
      && r == image[start..start + |r|]
      && (start + |r| == |image| || image[start + |r|] == ',')
  {
    if ',' in image then Split(image, ',')[1] else image
  }

  /**
   The centre region of interest: the largest even-sided square that fits
   the image, centred to within a pixel. With non-negative sizes Python's
   `//` agrees with Dafny's `/`.
   */
  function CentreCrop(d: Dims): (c: Crop)
    ensures 0 <= c.startX <= c.endX <= d.width
    ensures 0 <= c.startY <= c.endY <= d.height
    ensures c.endX - c.startX == c.endY - c.startY
    ensures Min(d.width, d.height) - 1 <= c.endX - c.startX <= Min(d.width, d.height)
    ensures (c.endX - c.startX) % 2 == 0
    ensures d.width - 1 <= c.startX + c.endX <= d.width
    ensures d.height - 1 <= c.startY + c.endY <= d.height
  {
    var centreX := d.width / 2;
    var centreY := d.height / 2;
    var roi := Min(d.width, d.height) / 2;
    var startX := centreX - roi;
    var startY := centreY - roi;
    Crop(startX, startY, startX + roi * 2, startY + roi * 2)
  }

  /**
   `preprocess_image`: strip, decode, crop; None when decoding fails or the
   crop is empty (resizing an empty array raises, and the handler turns
   every exception into None).
   */
  function Preprocess(image: string, decode: string -> Option<Dims>): (r: Option<Crop>)
    ensures r.Some? <==> decode(StripDataUrl(image)).Some? && Min(decode(StripDataUrl(image)).value.width, decode(StripDataUrl(image)).value.height) >= 2
    ensures r.Some? ==> r.value == CentreCrop(decode(StripDataUrl(image)).value)
    ensures r.Some? ==> 2 <= r.value.endX - r.value.startX
  {
    match decode(StripDataUrl(image))
    case None => None
    case Some(d) =>
      var c := CentreCrop(d);
      if c.endX - c.startX == 0 then None else Some(c)
  }

  /** Whether the request carries an image. */
  predicate HasImage(data: Option<DetectRequest>)
  {
    data.Some? && data.value.image.Some?
  }

  /**
   The outcome of `detect_sign`'s checks: the first failing one in the
   order model, image, preprocessing, class index; otherwise the label of
   the predicted class.
   */
  function Classify(modelLoaded: bool, classNames: seq<string>, data: Option<DetectRequest>,
                    decode: string -> Option<Dims>, predict: Crop -> Prediction): (v: Verdict)
    ensures v == Failed(ModelNotLoaded) <==> !modelLoaded
    ensures v == Failed(NoImageData) <==> modelLoaded && !HasImage(data)
    ensures v == Failed(PreprocessingFailed) <==>
      modelLoaded && HasImage(data) && Preprocess(data.value.image.value, decode).None?
    ensures v == Failed(InvalidPrediction) <==>
      && modelLoaded && HasImage(data)
      && Preprocess(data.value.image.value, decode).Some?
      && predict(Preprocess(data.value.image.value, decode).value).index >= |classNames|
    ensures v.Classified? ==>
      && HasImage(data)
      && Preprocess(data.value.image.value, decode).Some?
      && var p := predict(Preprocess(data.value.image.value, decode).value);
         p.index < |classNames| && v.sign == classNames[p.index] && v.confidence == p.confidence
  {
    if !modelLoaded then Failed(ModelNotLoaded)
    else if !HasImage(data) then Failed(NoImageData)
    else
      match Preprocess(data.value.image.value, decode)
      case None => Failed(PreprocessingFailed)
      case Some(crop) =>
        var p := predict(crop);
        if p.index >= |classNames| then Failed(InvalidPrediction)
        else Classified(classNames[p.index], p.confidence)
  }

  /**
   Where a detection result goes: to everyone in the request's room when
   the request names a registered room by a non-empty id (an empty string
   is falsy in Python), otherwise back to the sender.
   */
  function Route(rooms: Rooms, data: DetectRequest): (t: Target)
    ensures t.ToRoom? <==> data.roomId.Some? && data.roomId.value != "" && data.roomId.value in rooms
    ensures t.ToRoom? ==> t == ToRoom(data.roomId.value, None)
  {
    match data.roomId
    case Some(k) => if k != "" && k in rooms then ToRoom(k, None) else ToSender
    case None => ToSender
  }

  /** `detect_sign`: one emit, an error to the sender or a result routed by `Route`. */
  function DetectSign(modelLoaded: bool, classNames: seq<string>, rooms: Rooms, data: Option<DetectRequest>,
                      decode: string -> Option<Dims>, predict: Crop -> Prediction): (e: Emit)
    ensures e.event.DetectionError? <==> Classify(modelLoaded, classNames, data, decode, predict).Failed?
    ensures e.event.DetectionError? ==>
      e.to == ToSender && e.event.message == Message(Classify(modelLoaded, classNames, data, decode, predict).failure)
    ensures e.event.DetectionResult? ==>
      && data.Some?
      && e.event.sign in classNames
      && e.to == Route(rooms, data.value)
    ensures var v := Classify(modelLoaded, classNames, data, decode, predict);
      v.Classified? ==> data.Some? && e == Emit(DetectionResult(v.sign, v.confidence), Route(rooms, data.value))
  {
    match Classify(modelLoaded, classNames, data, decode, predict)
    case Failed(f) => Emit(DetectionError(Message(f)), ToSender)
    case Classified(sign, confidence) => Emit(DetectionResult(sign, confidence), Route(rooms, data.value))
  }

  /**
   A request from the detection page, which sends `{image: frame}` with no
   room id, is always answered to the sender alone, whatever rooms exist.
   */
  lemma FrameRequestAnsweredToSender(modelLoaded: bool, classNames: seq<string>, rooms: Rooms, frame: string,
                                     decode: string -> Option<Dims>, predict: Crop -> Prediction)
    ensures DetectSign(modelLoaded, classNames, rooms, Some(DetectRequest(Some(frame), None)), decode, predict).to == ToSender
  {
  }
}
