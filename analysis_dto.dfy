/** The analysis server's JSON result, as the Android client deserialises it. */
module AnalysisDto {
  datatype AnalysisMetadata = AnalysisMetadata(
    version: string, model: string, videoWidth: int, videoHeight: int,
    totalFrames: int, fps: real, durationSec: real)

  datatype AnalysisSummary = AnalysisSummary(
    totalScore: int, accuracyGrade: string, worstPoints: seq<string>, partAccuracies: map<string, int>)

  /** One analysed video frame: `keypoints` holds `[x, y, confidence]` triples, `errors` 0/1 flags per joint. */
  datatype FrameData = FrameData(
    frameIndex: int, timestamp: real, isValid: bool, score: real,
    keypoints: seq<seq<real>>, errors: seq<int>)

  datatype AnalysisResultResponse = AnalysisResultResponse(
    metadata: AnalysisMetadata, summary: AnalysisSummary, frames: seq<FrameData>)
}
