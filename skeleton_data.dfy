/** Joints and bones of the 17-point COCO skeleton drawn by the Android client. */
module SkeletonData {

  datatype BodyPart =
    | Nose | LeftEye | RightEye | LeftEar | RightEar
    | LeftShoulder | RightShoulder
    | LeftElbow | RightElbow
    | LeftWrist | RightWrist
    | LeftHip | RightHip
    | LeftKnee | RightKnee
    | LeftAnkle | RightAnkle

  /** A joint in normalised coordinates; the confidence defaults to 1. */
  datatype KeyPoint = KeyPoint(bodyPart: BodyPart, x: real, y: real, confidence: real := 1.0)

  const PartCount: nat := 17

  /** `BodyPart.values()`, in declaration order. */
  const Values: seq<BodyPart> := [
    Nose, LeftEye, RightEye, LeftEar, RightEar,
    LeftShoulder, RightShoulder,
    LeftElbow, RightElbow,
    LeftWrist, RightWrist,
    LeftHip, RightHip,
    LeftKnee, RightKnee,
    LeftAnkle, RightAnkle]

  /** `ordinal`: the position of the part in declaration order. */
  function Ordinal(p: BodyPart): (i: nat)
    ensures i < PartCount
  {
    match p
    case Nose => 0 case LeftEye => 1 case RightEye => 2 case LeftEar => 3 case RightEar => 4
    case LeftShoulder => 5 case RightShoulder => 6
    case LeftElbow => 7 case RightElbow => 8
    case LeftWrist => 9 case RightWrist => 10
    case LeftHip => 11 case RightHip => 12
    case LeftKnee => 13 case RightKnee => 14
    case LeftAnkle => 15 case RightAnkle => 16
  }

  /** There are exactly 17 parts, NOSE = 0 to RIGHT_ANKLE = 16, and ordinals are a bijection. */
  lemma ValuesAreOrdinals()
    ensures |Values| == PartCount
    ensures forall i :: 0 <= i < |Values| ==> Ordinal(Values[i]) == i
    ensures forall p: BodyPart :: Values[Ordinal(p)] == p
    ensures Ordinal(Nose) == 0 && Ordinal(RightAnkle) == 16
  {
  }

  /** The 16 bones drawn between joints. */
  const BodyConnections: seq<(BodyPart, BodyPart)> := [
    (Nose, LeftEye), (Nose, RightEye),
    (LeftEye, LeftEar), (RightEye, RightEar),
    (LeftShoulder, RightShoulder),
    (LeftShoulder, LeftHip),
    (RightShoulder, RightHip),
    (LeftShoulder, LeftElbow),
    (LeftElbow, LeftWrist),
    (RightShoulder, RightElbow),
    (RightElbow, RightWrist),
    (LeftHip, RightHip),
    (LeftHip, LeftKnee),
    (LeftKnee, LeftAnkle),
    (RightHip, RightKnee),
    (RightKnee, RightAnkle)]

  /**
   * A bone whose endpoints include `p`: every part is reached by the drawn skeleton.
   */
  function BoneOf(p: BodyPart): (k: nat)
    ensures k < |BodyConnections|
    ensures BodyConnections[k].0 == p || BodyConnections[k].1 == p
  {
    match p
    case Nose => 0 case LeftEye => 0 case RightEye => 1 case LeftEar => 2 case RightEar => 3
    case LeftShoulder => 4 case RightShoulder => 4 case LeftElbow => 7 case RightElbow => 9
    case LeftWrist => 8 case RightWrist => 10 case LeftHip => 5 case RightHip => 6
    case LeftKnee => 12 case RightKnee => 14 case LeftAnkle => 13 case RightAnkle => 15
  }

  /** A code for an unordered pair of parts: equal for a bone and for its reverse. */
  function BoneCode(b: (BodyPart, BodyPart)): nat {
    var i, j := Ordinal(b.0), Ordinal(b.1);
    if i <= j then i * PartCount + j else j * PartCount + i
  }

  /** The table position of the bone with a given code, or -1. */
  function BoneIndex(code: nat): int {
    if code == 1 then 0 else if code == 2 then 1 else if code == 20 then 2 else if code == 38 then 3
    else if code == 91 then 4 else if code == 96 then 5 else if code == 114 then 6 else if code == 92 then 7
    else if code == 128 then 8 else if code == 110 then 9 else if code == 146 then 10 else if code == 199 then 11
    else if code == 200 then 12 else if code == 236 then 13 else if code == 218 then 14 else if code == 254 then 15
    else -1
  }
  /** Each bone's code leads back to its own position, and no bone joins a part to itself. */
  lemma BoneCodeInverse(k: nat)
    requires k < |BodyConnections|
    ensures BoneIndex(BoneCode(BodyConnections[k])) == k
    ensures BodyConnections[k].0 != BodyConnections[k].1
  {
    if k == 0 { } else if k == 1 { } else if k == 2 { } else if k == 3 { } else if k == 4 { } else if k == 5 { } else if k == 6 { } else if k == 7 { } else if k == 8 { } else if k == 9 { } else if k == 10 { } else if k == 11 { } else if k == 12 { } else if k == 13 { } else if k == 14 { } else { }
  }
  /**
   * The bone table has 16 bones, and no bone is listed twice in either orientation (codes are
   * told apart by `BoneIndex`).
   */
  lemma ConnectionsDistinct()
    ensures |BodyConnections| == 16
    ensures forall j, k :: 0 <= j < k < |BodyConnections| ==>
      BodyConnections[j] != BodyConnections[k] && BodyConnections[j] != (BodyConnections[k].1, BodyConnections[k].0)
  {
    forall j, k | 0 <= j < k < |BodyConnections|
      ensures BodyConnections[j] != BodyConnections[k] && BodyConnections[j] != (BodyConnections[k].1, BodyConnections[k].0)
    {
      BoneCodeInverse(j);
      BoneCodeInverse(k);
      assert BoneCode((BodyConnections[k].1, BodyConnections[k].0)) == BoneCode(BodyConnections[k]);
    }
  }

  /** A key point built without a confidence has confidence 1. */
  lemma DefaultConfidence(p: BodyPart, x: real, y: real)
    ensures KeyPoint(p, x, y).confidence == 1.0
  {
  }
}
