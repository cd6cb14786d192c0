/**
 * What each HTTP endpoint of the voice-agent backend answers, and which provider
 * requests it makes, as functions of the stored uploads and the providers' replies.
 *
 * An `Exchange` pairs the JSON body returned to the client with the handler's
 * outward effects in order. The stateful handlers in module Server are proved
 * to produce exactly these exchanges.
 */
module Endpoints {
  import opened Common
  import opened Providers
  import opened Polling

  const UploadDir := "uploads"
  const AudioPrefix := "audio/"
  const EchoVoice := "en-IN-aarav"
  const GeminiModel := "gemini-1.5-flash"

  /** Why a request failed; each carries what its "error" message interpolates. */
  datatype Fault =
    | InvalidFileType
    | FileNotFound
    | UploadFailed(detail: string)
    | StartFailed(detail: string)
    | TranscriptionFailed(detail: string)
    | TranscriptionTimedOut
    | GenerateFailed(detail: string)
    | MurfFailed(detail: string)
    | NoAudioFile
    | GeminiNotConfigured
    | GeminiFailed(detail: string)

  /** The text the endpoint returns under "error". */
  function Message(f: Fault): string
  {
    match f
    case InvalidFileType => "Invalid file type. Please upload an audio file."
    case FileNotFound => "File not found."
    case UploadFailed(detail) => "Failed to upload audio to AssemblyAI: " + detail
    case StartFailed(detail) => "Failed to start transcription job: " + detail
    case TranscriptionFailed(detail) => "Transcription failed: " + detail
    case TranscriptionTimedOut => "Transcription timed out."
    case GenerateFailed(detail) => "Failed to generate audio: " + detail
    case MurfFailed(detail) => "Failed to generate audio with Murf: " + detail
    case NoAudioFile => "No audio file returned from Murf API"
    case GeminiNotConfigured => "Gemini API key not configured."
    case GeminiFailed(detail) => "Failed to generate response from Gemini: " + detail
  }

  /** A multipart file as the client sent it. */
  datatype UploadFile = UploadFile(filename: string, contentType: string, content: seq<byte>)

  /** The JSON object an endpoint returns. */
  datatype Body =
    | Error(fault: Fault)
    | Uploaded(filename: string, fileSize: nat, contentType: string, path: string)
    | AudioGenerated(url: Option<string>)
    | Transcribed(transcription: string)
    | Echoed(transcription: string, audioUrl: string)
    | LlmAnswer(response: string)

  datatype Exchange = Exchange(body: Body, effects: seq<Effect>)

  /** The content-type gate of the upload and echo endpoints. */
  predicate IsAudio(contentType: string)
  {
    StartsWith(contentType, AudioPrefix)
  }

  /** Where a file is stored: the filename joined under the upload directory. */
  function StoragePath(filename: string): string
  {
    UploadDir + "/" + filename
  }

  /** Python's truth test on a `.get("audioFile")` value: absent or empty is false. */
  predicate HasAudioUrl(audioFile: Option<string>)
  {
    audioFile.Some? && audioFile.value != ""
  }

  /** The message a finished poll loop turns into. */
  function PollResult(o: PollOutcome): Result<string, Fault>
  {
    match o
    case PollCompleted(text) => Success(text)
    case PollFailed(error) => Failure(TranscriptionFailed(error))
    case PollTimedOut => Failure(TranscriptionTimedOut)
  }

  datatype Staged = Staged(result: Result<string, Fault>, effects: seq<Effect>)

  /** Upload the audio, start a job on the upload URL, then poll the job. */
  function TranscriptionStages(audio: seq<byte>, up: UploadReply, job: JobReply, polls: seq<PollReply>): Staged
    requires |polls| >= MaxAttempts
  {
    if up.statusCode != 200 then
      Staged(Failure(UploadFailed(up.text)), [AssemblyUpload(audio)])
    else if job.statusCode != 200 then
      Staged(Failure(StartFailed(job.text)), [AssemblyUpload(audio), AssemblyStartJob(up.uploadUrl)])
    else
      var p := PollFrom(job.id, polls, 0, MaxAttempts);
      Staged(PollResult(p.outcome), [AssemblyUpload(audio), AssemblyStartJob(up.uploadUrl)] + p.effects)
  }

  /** `POST /transcribe` on the stored file `filename`. */
  function TranscribeSpec(uploads: map<string, seq<byte>>, filename: string,
                          up: UploadReply, job: JobReply, polls: seq<PollReply>): Exchange
    requires |polls| >= MaxAttempts
  {
    if filename !in uploads then Exchange(Error(FileNotFound), [])
    else
      var s := TranscriptionStages(uploads[filename], up, job, polls);
      Exchange(TranscriptionBody(s.result), s.effects)
  }

  /** The body `/transcribe` answers once the stages have run. */
  function TranscriptionBody(r: Result<string, Fault>): Body
  {
    match r
    case Success(text) => Transcribed(text)
    case Failure(fault) => Error(fault)
  }

  /** `POST /tts/echo`: the gate, then transcription of the sent bytes, then synthesis with EchoVoice. */
  function EchoSpec(file: UploadFile, up: UploadReply, job: JobReply, polls: seq<PollReply>,
                    murf: MurfReply): Exchange
    requires |polls| >= MaxAttempts
  {
    if !IsAudio(file.contentType) then Exchange(Error(InvalidFileType), [])
    else
      var s := TranscriptionStages(file.content, up, job, polls);
      match s.result
      case Failure(message) => Exchange(Error(message), s.effects)
      case Success(transcription) =>
        var effects := s.effects + [MurfGenerate(EchoVoice, transcription)];
        if murf.statusCode != 200 then Exchange(Error(MurfFailed(murf.text)), effects)
        else if !HasAudioUrl(murf.audioFile) then Exchange(Error(NoAudioFile), effects)
        else Exchange(Echoed(transcription, murf.audioFile.value), effects)
  }

  /**
   * `POST /generate-audio`: exactly one Murf request with the caller's voice and
   * text; a non-200 reply is an error carrying the reply body, and a 200 reply
   * passes `audioFile` through as it is, absent or empty included.
   */
  function GenerateAudio(text: string, voiceId: string, murf: MurfReply): (r: Exchange)
    ensures r.effects == [MurfGenerate(voiceId, text)]
    ensures r.body.Error? <==> murf.statusCode != 200
    ensures r.body.Error? ==> r.body.fault == GenerateFailed(murf.text)
    ensures !r.body.Error? ==> r.body.AudioGenerated? && r.body.url == murf.audioFile
  {
    var effects := [MurfGenerate(voiceId, text)];
    if murf.statusCode != 200 then Exchange(Error(GenerateFailed(murf.text)), effects)
    else Exchange(AudioGenerated(murf.audioFile), effects)
  }

  /** Python's truth test on the configured Gemini key: absent or empty is false. */
  predicate KeyConfigured(apiKey: Option<string>)
  {
    apiKey.Some? && apiKey.value != ""
  }

  /**
   * `POST /llm/query`: without a key the model is never invoked; with one it is
   * invoked once, and a raised exception becomes an error body.
   */
  function LlmQuery(apiKey: Option<string>, text: string, gemini: GeminiReply): (r: Exchange)
    ensures !KeyConfigured(apiKey) ==> r == Exchange(Error(GeminiNotConfigured), [])
    ensures KeyConfigured(apiKey) ==> r.effects == [GeminiGenerate(apiKey.value, GeminiModel, text)]
    ensures r.body.Error? || r.body.LlmAnswer?
    ensures r.body.LlmAnswer? <==> KeyConfigured(apiKey) && gemini.Generated?
    ensures r.body.LlmAnswer? ==> r.body.response == gemini.text
    ensures KeyConfigured(apiKey) && gemini.Raised? ==> r.body.fault == GeminiFailed(gemini.message)
  {
    if !KeyConfigured(apiKey) then Exchange(Error(GeminiNotConfigured), [])
    else
      var effects := [GeminiGenerate(apiKey.value, GeminiModel, text)];
      match gemini
      case Generated(response) => Exchange(LlmAnswer(response), effects)
      case Raised(message) => Exchange(Error(GeminiFailed(message)), effects)
  }

  /**
   * The early exits of `/transcribe`: a missing file makes no provider request;
   * a failed upload starts no job; a failed job start polls nothing.
   */
  lemma TranscribeStopsAtFirstFailedStage(uploads: map<string, seq<byte>>, filename: string,
                                          up: UploadReply, job: JobReply, polls: seq<PollReply>)
    requires |polls| >= MaxAttempts
    ensures var t := TranscribeSpec(uploads, filename, up, job, polls);
            && (filename !in uploads ==> t == Exchange(Error(FileNotFound), []))
            && (filename in uploads && up.statusCode != 200 ==>
                  t == Exchange(Error(UploadFailed(up.text)), [AssemblyUpload(uploads[filename])]))
            && (filename in uploads && up.statusCode == 200 && job.statusCode != 200 ==>
                  t == Exchange(Error(StartFailed(job.text)),
                                [AssemblyUpload(uploads[filename]), AssemblyStartJob(up.uploadUrl)]))
  {
  }

  /**
   * Once the job has started, `/transcribe` answers according to the first terminal
   * poll reply: the text of a "completed" reply, "Transcription failed: <error>" for
   * an "error" reply, or the timeout after MaxAttempts non-terminal replies; it polls
   * nothing after that reply.
   */
  lemma {:induction false} TranscribeAnswersFirstTerminalPoll(uploads: map<string, seq<byte>>, filename: string,
                                                              up: UploadReply, job: JobReply, polls: seq<PollReply>)
    requires |polls| >= MaxAttempts
    requires filename in uploads && up.statusCode == 200 && job.statusCode == 200
    ensures var t := TranscribeSpec(uploads, filename, up, job, polls);
            var k := FirstTerminal(polls, 0, MaxAttempts);
            && (k < MaxAttempts && polls[k].Completed? ==> t.body == Transcribed(polls[k].text))
            && (k < MaxAttempts && polls[k].Errored? ==>
                  t.body == Error(TranscriptionFailed(polls[k].error)))
            && (k == MaxAttempts ==> t.body == Error(TranscriptionTimedOut))
            && PollCount(t.effects) == (if k < MaxAttempts then k + 1 else MaxAttempts)
  {
    var p := PollFrom(job.id, polls, 0, MaxAttempts);
    PollEndsAtFirstTerminal(job.id, polls, 0, MaxAttempts);
    CountsDistribute([AssemblyUpload(uploads[filename]), AssemblyStartJob(up.uploadUrl)], p.effects);
  }

  /**
   * Whatever the replies, the transcription stages poll at most MaxAttempts times,
   * sleep once (for PollIntervalSeconds) per polled reply that was neither
   * "completed" nor "error", and so sleep at most MaxAttempts * PollIntervalSeconds
   * seconds.
   */
  lemma {:induction false} StagesPollingIsBounded(audio: seq<byte>, up: UploadReply, job: JobReply, polls: seq<PollReply>)
    requires |polls| >= MaxAttempts
    ensures PollingBounded(TranscriptionStages(audio, up, job, polls).effects, polls)
  {
    if up.statusCode == 200 && job.statusCode == 200 {
      StartedStagesPollingIsBounded(audio, up, job, polls);
    } else {
      NoPollingIn(TranscriptionStages(audio, up, job, polls).effects);
      assert polls[..0] == [];
    }
  }

  /** The bounds of StagesPollingIsBounded once a job is running: they are those of the poll loop. */
  lemma StartedStagesPollingIsBounded(audio: seq<byte>, up: UploadReply, job: JobReply, polls: seq<PollReply>)
    requires |polls| >= MaxAttempts && up.statusCode == 200 && job.statusCode == 200
    ensures PollingBounded(TranscriptionStages(audio, up, job, polls).effects, polls)
  {
    var head := [AssemblyUpload(audio), AssemblyStartJob(up.uploadUrl)];
    var p := PollFrom(job.id, polls, 0, MaxAttempts);
    PollLoopIsBounded(job.id, polls);
    QuietPrefixKeepsBounds(head, p.effects, polls);
  }

  /** The same bounds for `/transcribe`, which makes no request at all for a missing file. */
  lemma TranscribePollingIsBounded(uploads: map<string, seq<byte>>, filename: string,
                                   up: UploadReply, job: JobReply, polls: seq<PollReply>)
    requires |polls| >= MaxAttempts
    ensures PollingBounded(TranscribeSpec(uploads, filename, up, job, polls).effects, polls)
  {
    if filename in uploads {
      StagesPollingIsBounded(uploads[filename], up, job, polls);
    } else {
      assert polls[..0] == [];
    }
  }

  /** The transcription stages never talk to Murf. */
  lemma {:induction false} StagesNeverSynthesise(audio: seq<byte>, up: UploadReply, job: JobReply, polls: seq<PollReply>)
    requires |polls| >= MaxAttempts
    ensures MurfCalls(TranscriptionStages(audio, up, job, polls).effects) == []
  {
    var head := [AssemblyUpload(audio), AssemblyStartJob(up.uploadUrl)];
    if up.statusCode == 200 && job.statusCode == 200 {
      var p := PollFrom(job.id, polls, 0, MaxAttempts);
      PollEndsAtFirstTerminal(job.id, polls, 0, MaxAttempts);
      CountsDistribute(head, p.effects);
    } else if up.statusCode == 200 {
      assert MurfCalls(head) == MurfCalls(head[1..]);
    }
  }

  /**
   * Echo asks Murf for speech exactly when the file passed the gate and its
   * transcription completed, and then exactly once, with voice EchoVoice and text
   * equal to the transcription.
   */
  lemma {:induction false} EchoSynthesisesOnlyTheTranscription(file: UploadFile, up: UploadReply, job: JobReply,
                                                               polls: seq<PollReply>, murf: MurfReply)
    requires |polls| >= MaxAttempts
    ensures var e := EchoSpec(file, up, job, polls, murf);
            var s := TranscriptionStages(file.content, up, job, polls);
            MurfCalls(e.effects) == if IsAudio(file.contentType) && s.result.Success?
                                    then [MurfGenerate(EchoVoice, s.result.value)]
                                    else []
  {
    if IsAudio(file.contentType) {
      var s := TranscriptionStages(file.content, up, job, polls);
      StagesNeverSynthesise(file.content, up, job, polls);
      if s.result.Success? {
        var call := MurfGenerate(EchoVoice, s.result.value);
        CountsDistribute(s.effects, [call]);
        assert MurfCalls([call]) == [call] + MurfCalls([]);
      }
    }
  }

  /**
   * Echo succeeds exactly when the gate, all three transcription stages and Murf
   * succeed with a non-empty `audioFile`, and then returns both the transcription
   * and that audio URL.
   */
  lemma EchoSucceedsWithBoth(file: UploadFile, up: UploadReply, job: JobReply, polls: seq<PollReply>, murf: MurfReply)
    requires |polls| >= MaxAttempts
    ensures var e := EchoSpec(file, up, job, polls, murf);
            var s := TranscriptionStages(file.content, up, job, polls);
            && (e.body.Echoed? <==>
                  IsAudio(file.contentType) && s.result.Success? && murf.statusCode == 200 && HasAudioUrl(murf.audioFile))
            && (e.body.Echoed? ==>
                  e.body == Echoed(s.result.value, murf.audioFile.value) && e.body.audioUrl != "")
            && (e.body.Error? || e.body.Echoed?)
  {
  }

  /**
   * Echo's synthesis makes the request `/generate-audio` would make for the same
   * transcription and voice. On a non-200 reply both fail with the same reply
   * body but under different messages; on a 200 reply with a usable `audioFile`
   * both hand back that URL; on a 200 reply without one, `/generate-audio` passes
   * the missing or empty value through while echo reports NoAudioFile, an error
   * distinct from a failed Murf request.
   */
  lemma EchoSynthesisVersusGenerateAudio(file: UploadFile, up: UploadReply, job: JobReply,
                                         polls: seq<PollReply>, murf: MurfReply)
    requires |polls| >= MaxAttempts
    requires IsAudio(file.contentType)
    requires TranscriptionStages(file.content, up, job, polls).result.Success?
    ensures var e := EchoSpec(file, up, job, polls, murf);
            var s := TranscriptionStages(file.content, up, job, polls);
            var g := GenerateAudio(s.result.value, EchoVoice, murf);
            && e.effects == s.effects + g.effects
            && (murf.statusCode != 200 ==>
                  && e.body == Error(MurfFailed(murf.text)) && g.body == Error(GenerateFailed(murf.text))
                  && Message(e.body.fault) != Message(g.body.fault))
            && (murf.statusCode == 200 && HasAudioUrl(murf.audioFile) ==>
                  e.body.Echoed? && g.body == AudioGenerated(Some(e.body.audioUrl)))
            && (murf.statusCode == 200 && !HasAudioUrl(murf.audioFile) ==>
                  e.body == Error(NoAudioFile) && g.body == AudioGenerated(murf.audioFile))
            && Message(NoAudioFile) != Message(MurfFailed(murf.text))
  {
    assert Message(NoAudioFile)[0] != Message(MurfFailed(murf.text))[0];
    assert Message(MurfFailed(murf.text))[25] != Message(GenerateFailed(murf.text))[25];
  }

  /**
   * Echo's copy of the transcription stages behaves like `/transcribe` on the file
   * it has just stored: the same requests in the same order, the same error when
   * transcription fails, and the same transcription when echo succeeds.
   */
  lemma {:induction false} EchoTranscribesLikeTranscribe(uploads: map<string, seq<byte>>, file: UploadFile,
                                                         up: UploadReply, job: JobReply,
                                                         polls: seq<PollReply>, murf: MurfReply)
    requires |polls| >= MaxAttempts
    requires IsAudio(file.contentType)
    ensures var t := TranscribeSpec(uploads[file.filename := file.content], file.filename, up, job, polls);
            var e := EchoSpec(file, up, job, polls, murf);
            && t.effects <= e.effects
            && (t.body.Error? ==> e == t)
            && (t.body.Transcribed? ==> e.effects == t.effects + [MurfGenerate(EchoVoice, t.body.transcription)])
            && (e.body.Echoed? ==> t.body == Transcribed(e.body.transcription))
  {
  }
}
