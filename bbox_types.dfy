/**
 * Values shared by the bounding-box decoder: the decoding modes, one
 * detected object, and the per-mode properties the decoder looks up.
 */
module BoxTypes {

  /** bounding_box_modes, with the two deprecated names kept as their own values. */
  datatype BoxMode =
    | MobilenetSsd | MobilenetSsdPostprocess | OvPersonDetection | OvFaceDetection
    | OldMobilenetSsd | OldMobilenetSsdPostprocess | Yolov5 | MpPalmDetection
    | Yolov8 | Yolov8Oriented | UnknownMode

  /**
   * detectedObject. The probability is kept as an ordered key (its float
   * arithmetic plays no part in the decisions modelled here); the rotation
   * angle of oriented boxes is not modelled.
   */
  datatype DetectedObject = DetectedObject(
    valid: bool,
    classId: int,
    x: int, y: int, width: int, height: int,
    prob: int,
    trackingId: nat)

  /**
   * The per-mode properties object the decoder points at (bdata): the input
   * model size and the number of labels it was told about.
   */
  datatype BoxProperties = BoxProperties(name: string, inputWidth: nat, inputHeight: nat, totalLabels: nat)
}
