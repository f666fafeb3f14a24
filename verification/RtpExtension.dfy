/** An RTP header extension as negotiated: section 5 of RFC 8285. */
module RtpExtensions {
  datatype RtpExtension = RtpExtension(uri: string, id: int, encrypt: bool)

  const AUDIO_LEVEL_URI := "urn:ietf:params:rtp-hdrext:ssrc-audio-level"
  const ABS_SEND_TIME_URI := "http://www.webrtc.org/experiments/rtp-hdrext/abs-send-time"
  const ABSOLUTE_CAPTURE_TIME_URI := "http://www.webrtc.org/experiments/rtp-hdrext/abs-capture-time"
  const TRANSPORT_SEQUENCE_NUMBER_URI :=
    "http://www.ietf.org/id/draft-holmer-rmcat-transport-wide-cc-extensions-01"
  const MID_URI := "urn:ietf:params:rtp-hdrext:sdes:mid"
  const RID_URI := "urn:ietf:params:rtp-hdrext:sdes:rtp-stream-id"
  const REPAIRED_RID_URI := "urn:ietf:params:rtp-hdrext:sdes:repaired-rtp-stream-id"
}
