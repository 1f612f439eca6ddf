/** The app's error cases and their messages (Models/PoseEstimationError.swift). */
module PoseErrors {
  import opened Wrappers

  datatype PoseEstimationError =
    | CameraPermissionDenied
    | CameraConfigurationFailed
    | VideoLoadFailed
    | ModelInitializationFailed
    | FrameProcessingFailed
    | NoPoseDetected

  /** Every case, once each. */
  const AllErrors: seq<PoseEstimationError> := [
    CameraPermissionDenied, CameraConfigurationFailed, VideoLoadFailed,
    ModelInitializationFailed, FrameProcessingFailed, NoPoseDetected
  ]

  /** `errorDescription`: optional in its type, but present for every case. */
  function ErrorDescription(e: PoseEstimationError): (r: Option<string>)
    ensures r.Some?
    ensures e == VideoLoadFailed ==> r == Some("Failed to load video file.")
    ensures e == FrameProcessingFailed ==> r == Some("Failed to process video frame.")
  {
    match e
    case CameraPermissionDenied =>
      Some("Camera permission was denied. Please enable camera access in Settings.")
    case CameraConfigurationFailed => Some("Failed to configure camera. Please try again.")
    case VideoLoadFailed => Some("Failed to load video file.")
    case ModelInitializationFailed => Some("Failed to initialize pose estimation model.")
    case FrameProcessingFailed => Some("Failed to process video frame.")
    case NoPoseDetected => Some("No human pose detected in frame.")
  }

  /** There are exactly six cases. */
  lemma AllErrorsListed(e: PoseEstimationError)
    ensures |AllErrors| == 6
    ensures e in AllErrors
    ensures forall i, j :: 0 <= i < j < |AllErrors| ==> AllErrors[i] != AllErrors[j]
  {
    match e
    case CameraPermissionDenied => assert AllErrors[0] == e;
    case CameraConfigurationFailed => assert AllErrors[1] == e;
    case VideoLoadFailed => assert AllErrors[2] == e;
    case ModelInitializationFailed => assert AllErrors[3] == e;
    case FrameProcessingFailed => assert AllErrors[4] == e;
    case NoPoseDetected => assert AllErrors[5] == e;
  }

  /** The number of characters in each message. */
  function MessageLength(e: PoseEstimationError): nat
  {
    match e
    case CameraPermissionDenied => 70
    case CameraConfigurationFailed => 45
    case VideoLoadFailed => 26
    case ModelInitializationFailed => 43
    case FrameProcessingFailed => 30
    case NoPoseDetected => 32
  }

  lemma DescriptionLength(e: PoseEstimationError)
    ensures |ErrorDescription(e).value| == MessageLength(e)
  {
    match e
    case CameraPermissionDenied =>
    case CameraConfigurationFailed =>
    case VideoLoadFailed =>
    case ModelInitializationFailed =>
    case FrameProcessingFailed =>
    case NoPoseDetected =>
  }

  /** No two cases share a message: the six even differ in length. */
  lemma ErrorDescriptionsDistinct(e1: PoseEstimationError, e2: PoseEstimationError)
    ensures e1 != e2 ==> ErrorDescription(e1) != ErrorDescription(e2)
  {
    DescriptionLength(e1);
    DescriptionLength(e2);
  }
}
