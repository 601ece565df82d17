/**
 * What the frontend sees of the browser and of the speech endpoint: an audio
 * element (only the fields the frontend reads or writes) and the reply of the
 * text-to-speech request.
 */
module Media {
  import opened Wrappers
  import opened Timing

  /**
   * A browser audio element. `position` is `currentTime` in seconds, `rate`
   * is `playbackRate`, `duration` is None while the element does not know its
   * length yet (the browser reports NaN then). Events the element fires
   * ('play', 'pause', 'ended', 'timeupdate') are dispatched by the host and
   * modelled as handler methods of the objects that listen to them.
   */
  class AudioHandle {
    var src: string
    var position: real
    var rate: real
    var paused: bool
    var duration: Option<real>

    /** `new Audio(src)`: paused at the start, normal rate, length unknown. */
    constructor (src: string)
      ensures this.src == src && position == 0.0 && rate == 1.0 && paused && duration == None
    {
      this.src := src;
      position := 0.0;
      rate := 1.0;
      paused := true;
      duration := None;
    }
  }

  /** The body of a text-to-speech request: the text, the language code and the speed. */
  datatype TtsRequest = TtsRequest(text: string, language: string, speed: real)

  /** The JSON body of a text-to-speech reply. */
  datatype SpeechResponse = SpeechResponse(
    success: bool,
    error: Option<string>,
    audioUrl: string,
    wordTimings: seq<WordTiming>)

  /**
   * The outcome of the HTTP request: a reply body, or a thrown request error
   * carrying the error field of the error body (if any) and its message.
   */
  datatype TtsReply =
    | Replied(data: SpeechResponse)
    | Threw(bodyError: Option<string>, message: string)
}
