/**
 * The three remote providers (AssemblyAI, Murf, Gemini) seen only through their
 * replies, and the record of what a request handler does to the outside world.
 *
 * A reply datatype carries exactly the JSON fields the handler reads, so a
 * well-formed reply is guaranteed by its type.
 */
module Providers {
  import opened Common

  /** AssemblyAI `POST /v2/upload`: status code, raw body, and `upload_url` of the JSON body. */
  datatype UploadReply = UploadReply(statusCode: int, text: string, uploadUrl: string)

  /** AssemblyAI `POST /v2/transcript`: status code, raw body, and the job's `id`. */
  datatype JobReply = JobReply(statusCode: int, text: string, id: string)

  /** A transcript status other than the two that end polling. */
  type OtherStatus = s: string | s != "completed" && s != "error" witness "queued"

  /**
   * AssemblyAI `GET /v2/transcript/<id>`, by its `status` field: "completed" with
   * the `text`, "error" with the `error`, or any other status (such as "queued" or
   * "processing").
   */
  datatype PollReply = Completed(text: string) | Errored(error: string) | InProgress(status: OtherStatus)

  /** The `status` field a poll reply was read from. */
  function StatusOf(r: PollReply): string
  {
    match r
    case Completed(_) => "completed"
    case Errored(_) => "error"
    case InProgress(status) => status
  }

  /**
   * The handler's test on a polled JSON body with fields `status`, `text` and
   * `error`: every status string gives the reply it was read as, and the reply
   * keeps the field the handler goes on to read.
   */
  function Classify(status: string, text: string, error: string): (r: PollReply)
    ensures StatusOf(r) == status
    ensures r.Completed? ==> r.text == text
    ensures r.Errored? ==> r.error == error
  {
    if status == "completed" then Completed(text)
    else if status == "error" then Errored(error)
    else InProgress(status)
  }

  /** Murf `POST /v1/speech/generate`: status code, raw body, and `audioFile` if present. */
  datatype MurfReply = MurfReply(statusCode: int, text: string, audioFile: Option<string>)

  /** Gemini `generate_content`: the generated text, or the message of the exception it raised. */
  datatype GeminiReply = Generated(text: string) | Raised(message: string)

  /** One outward action of a handler, in the order it happens. */
  datatype Effect =
    | AssemblyUpload(audio: seq<byte>)
    | AssemblyStartJob(audioUrl: string)
    | AssemblyPoll(transcriptId: string)
    | Sleep(seconds: nat)
    | MurfGenerate(voiceId: string, text: string)
    | GeminiGenerate(apiKey: string, model: string, prompt: string)

  /** Number of status polls among the effects. */
  function PollCount(effects: seq<Effect>): nat
  {
    if effects == [] then 0
    else (if effects[0].AssemblyPoll? then 1 else 0) + PollCount(effects[1..])
  }

  /** Number of sleeps among the effects. */
  function SleepCount(effects: seq<Effect>): nat
  {
    if effects == [] then 0
    else (if effects[0].Sleep? then 1 else 0) + SleepCount(effects[1..])
  }

  /** Total time spent sleeping, in seconds. */
  function SleptSeconds(effects: seq<Effect>): nat
  {
    if effects == [] then 0
    else (if effects[0].Sleep? then effects[0].seconds else 0) + SleptSeconds(effects[1..])
  }

  /** The Murf synthesis requests among the effects, in order. */
  function MurfCalls(effects: seq<Effect>): seq<Effect>
  {
    if effects == [] then []
    else (if effects[0].MurfGenerate? then [effects[0]] else []) + MurfCalls(effects[1..])
  }

  lemma {:induction false} PollCountDistributes(a: seq<Effect>, b: seq<Effect>)
    ensures PollCount(a + b) == PollCount(a) + PollCount(b)
  {
    if a != [] {
      assert (a + b)[1..] == a[1..] + b;
      PollCountDistributes(a[1..], b);
    } else {
      assert a + b == b;
    }
  }

  lemma {:induction false} SleepCountDistributes(a: seq<Effect>, b: seq<Effect>)
    ensures SleepCount(a + b) == SleepCount(a) + SleepCount(b)
  {
    if a != [] {
      assert (a + b)[1..] == a[1..] + b;
      SleepCountDistributes(a[1..], b);
    } else {
      assert a + b == b;
    }
  }

  lemma {:induction false} SleptSecondsDistributes(a: seq<Effect>, b: seq<Effect>)
    ensures SleptSeconds(a + b) == SleptSeconds(a) + SleptSeconds(b)
  {
    if a != [] {
      assert (a + b)[1..] == a[1..] + b;
      SleptSecondsDistributes(a[1..], b);
    } else {
      assert a + b == b;
    }
  }

  lemma {:induction false} MurfCallsDistribute(a: seq<Effect>, b: seq<Effect>)
    ensures MurfCalls(a + b) == MurfCalls(a) + MurfCalls(b)
  {
    if a != [] {
      assert (a + b)[1..] == a[1..] + b;
      MurfCallsDistribute(a[1..], b);
    } else {
      assert a + b == b;
    }
  }

  /** Effects with no poll and no sleep in them count zero polls, sleeps and seconds. */
  lemma {:induction false} NoPollingIn(effects: seq<Effect>)
    requires forall e :: e in effects ==> !e.AssemblyPoll? && !e.Sleep?
    ensures PollCount(effects) == 0 && SleepCount(effects) == 0 && SleptSeconds(effects) == 0
  {
    if effects != [] {
      assert effects[0] in effects;
      assert forall e :: e in effects[1..] ==> e in effects;
      NoPollingIn(effects[1..]);
    }
  }

  /** The counters above see a concatenation as the sum of its parts. */
  lemma CountsDistribute(a: seq<Effect>, b: seq<Effect>)
    ensures PollCount(a + b) == PollCount(a) + PollCount(b)
    ensures SleepCount(a + b) == SleepCount(a) + SleepCount(b)
    ensures SleptSeconds(a + b) == SleptSeconds(a) + SleptSeconds(b)
    ensures MurfCalls(a + b) == MurfCalls(a) + MurfCalls(b)
  {
    PollCountDistributes(a, b);
    SleepCountDistributes(a, b);
    SleptSecondsDistributes(a, b);
    MurfCallsDistribute(a, b);
  }
}
