/**
 * The request handlers that touch state: the `uploads` directory is the map
 * `uploads` from filename to stored bytes, and each handler walks the provider
 * replies it is given in the order the source requests them.
 */
module Server {
  import opened Common
  import opened Providers
  import opened Polling
  import opened Endpoints

  class VoiceAgent {
    /** The contents of the upload directory, by filename. */
    var uploads: map<string, seq<byte>>

    /** Start-up: the upload directory exists, with whatever it already held. */
    constructor (existing: map<string, seq<byte>>)
      ensures uploads == existing
    {
      uploads := existing;
    }

    /**
     * `POST /upload-audio`: a non-audio content type is refused before any write;
     * otherwise the bytes are stored under the filename, replacing an earlier file
     * of that name and leaving every other file as it was.
     */
    method UploadAudio(file: UploadFile) returns (body: Body)
      modifies this
      ensures !IsAudio(file.contentType) ==> body == Error(InvalidFileType) && uploads == old(uploads)
      ensures IsAudio(file.contentType) ==> uploads == old(uploads)[file.filename := file.content]
      ensures IsAudio(file.contentType) ==>
                body == Uploaded(file.filename, |file.content|, file.contentType, StoragePath(file.filename))
    {
      if !IsAudio(file.contentType) {
        return Error(InvalidFileType);
      }
      var location := StoragePath(file.filename);
      uploads := uploads[file.filename := file.content];
      body := Uploaded(file.filename, |uploads[file.filename]|, file.contentType, location);
    }

    /** `POST /transcribe`: look the file up, then run the transcription stages on it. */
    method TranscribeAudio(filename: string, up: UploadReply, job: JobReply, polls: seq<PollReply>)
      returns (body: Body, effects: seq<Effect>)
      requires |polls| >= MaxAttempts
      ensures Exchange(body, effects) == TranscribeSpec(uploads, filename, up, job, polls)
    {
      if filename !in uploads {
        return Error(FileNotFound), [];
      }
      var transcribed;
      transcribed, effects := TranscribeStored(uploads[filename], up, job, polls);
      match transcribed
      case Success(text) => body := Transcribed(text);
      case Failure(fault) => body := Error(fault);
    }

    /**
     * `POST /tts/echo`: the gate, the write, the echo handler's own copy of the
     * transcription stages on the stored file, then speech synthesis of the
     * transcription with the fixed voice.
     */
    method TtsEcho(file: UploadFile, up: UploadReply, job: JobReply, polls: seq<PollReply>, murf: MurfReply)
      returns (body: Body, effects: seq<Effect>)
      requires |polls| >= MaxAttempts
      modifies this
      ensures uploads == if IsAudio(file.contentType) then old(uploads)[file.filename := file.content]
                         else old(uploads)
      ensures Exchange(body, effects) == EchoSpec(file, up, job, polls, murf)
    {
      if !IsAudio(file.contentType) {
        return Error(InvalidFileType), [];
      }
      uploads := uploads[file.filename := file.content];

      effects := [AssemblyUpload(uploads[file.filename])];
      if up.statusCode != 200 {
        return Error(UploadFailed(up.text)), effects;
      }
      var uploadUrl := up.uploadUrl;
      effects := effects + [AssemblyStartJob(uploadUrl)];
      if job.statusCode != 200 {
        return Error(StartFailed(job.text)), effects;
      }
      var transcription, polled := PollTranscriptForEcho(job.id, polls);
      effects := effects + polled;
      ghost var stages := TranscriptionStages(file.content, up, job, polls);
      assert stages == Staged(transcription, effects);
      if transcription.Failure? {
        return Error(transcription.error), effects;
      }

      effects := effects + [MurfGenerate(EchoVoice, transcription.value)];
      if murf.statusCode != 200 {
        return Error(MurfFailed(murf.text)), effects;
      }
      var audioUrl := murf.audioFile;
      if !HasAudioUrl(audioUrl) {
        return Error(NoAudioFile), effects;
      }
      return Echoed(transcription.value, audioUrl.value), effects;
    }
  }

  /** The three stages of `/transcribe`: upload the stored audio, start a job on it, poll the job. */
  method TranscribeStored(audio: seq<byte>, up: UploadReply, job: JobReply, polls: seq<PollReply>)
    returns (transcribed: Result<string, Fault>, effects: seq<Effect>)
    requires |polls| >= MaxAttempts
    ensures Staged(transcribed, effects) == TranscriptionStages(audio, up, job, polls)
  {
    effects := [AssemblyUpload(audio)];
    if up.statusCode != 200 {
      return Failure(UploadFailed(up.text)), effects;
    }
    var uploadUrl := up.uploadUrl;
    effects := effects + [AssemblyStartJob(uploadUrl)];
    if job.statusCode != 200 {
      return Failure(StartFailed(job.text)), effects;
    }
    var polled;
    transcribed, polled := PollTranscript(job.id, polls);
    ghost var p := PollFrom(job.id, polls, 0, MaxAttempts);
    assert polled == p.effects;
    assert transcribed == PollResult(p.outcome);
    assert TranscriptionStages(audio, up, job, polls) == Staged(PollResult(p.outcome), [AssemblyUpload(audio), AssemblyStartJob(up.uploadUrl)] + p.effects);
    effects := effects + polled;
  }

  /**
   * The poll loop of `/transcribe`: poll, return on a terminal status, otherwise
   * sleep; after MaxAttempts polls, time out.
   */
  method PollTranscript(transcriptId: string, polls: seq<PollReply>)
    returns (transcription: Result<string, Fault>, effects: seq<Effect>)
    requires |polls| >= MaxAttempts
    ensures var p := PollFrom(transcriptId, polls, 0, MaxAttempts);
            transcription == PollResult(p.outcome) && effects == p.effects
  {
    effects := [];
    var attempt := 0;
    while attempt < MaxAttempts
      invariant attempt <= MaxAttempts
      invariant forall j :: 0 <= j < attempt ==> !IsTerminal(polls[j])
      invariant effects == Waiting(transcriptId, attempt)
    {
      var result := polls[attempt];
      effects := effects + [AssemblyPoll(transcriptId)];
      if result.Completed? {
        PollResumesAfterWaiting(transcriptId, polls, attempt, MaxAttempts);
        return Success(result.text), effects;
      } else if result.Errored? {
        PollResumesAfterWaiting(transcriptId, polls, attempt, MaxAttempts);
        return Failure(TranscriptionFailed(result.error)), effects;
      }
      effects := effects + [Sleep(PollIntervalSeconds)];
      attempt := attempt + 1;
    }
    PollResumesAfterWaiting(transcriptId, polls, attempt, MaxAttempts);
    return Failure(TranscriptionTimedOut), effects;
  }

  /**
   * The echo handler's copy of the poll loop: `break` on "completed", return on
   * "error", and the loop's `else` (no `break` happened) is the timeout.
   */
  method PollTranscriptForEcho(transcriptId: string, polls: seq<PollReply>)
    returns (transcription: Result<string, Fault>, effects: seq<Effect>)
    requires |polls| >= MaxAttempts
    ensures var p := PollFrom(transcriptId, polls, 0, MaxAttempts);
            transcription == PollResult(p.outcome) && effects == p.effects
  {
    effects := [];
    var text: Option<string> := None;
    var attempt := 0;
    while attempt < MaxAttempts
      invariant attempt <= MaxAttempts
      invariant forall j :: 0 <= j < attempt ==> !IsTerminal(polls[j])
      invariant effects == Waiting(transcriptId, attempt)
      invariant text == None
    {
      var result := polls[attempt];
      effects := effects + [AssemblyPoll(transcriptId)];
      if result.Completed? {
        PollResumesAfterWaiting(transcriptId, polls, attempt, MaxAttempts);
        text := Some(result.text);
        break;
      } else if result.Errored? {
        PollResumesAfterWaiting(transcriptId, polls, attempt, MaxAttempts);
        return Failure(TranscriptionFailed(result.error)), effects;
      }
      effects := effects + [Sleep(PollIntervalSeconds)];
      attempt := attempt + 1;
    }
    if text.None? {
      PollResumesAfterWaiting(transcriptId, polls, attempt, MaxAttempts);
      return Failure(TranscriptionTimedOut), effects;
    }
    return Success(text.value), effects;
  }

  /** Upload `sample.wav`, then transcribe it against a provider that completes at once. */
  method SampleTranscription()
  {
    var agent := new VoiceAgent(map[]);
    var uploaded := agent.UploadAudio(UploadFile("sample.wav", "audio/wav", seq(1000, _ => 0)));
    assert uploaded.Uploaded? && uploaded.fileSize == 1000;
    var polls := seq(MaxAttempts, _ => Completed("hello world"));
    var body, effects := agent.TranscribeAudio("sample.wav", UploadReply(200, "", "https://cdn/u"),
                                               JobReply(200, "", "job-1"), polls);
    assert body == Transcribed("hello world");
    assert PollCount(effects) == 1 by {
      TranscribePollingIsBounded(agent.uploads, "sample.wav", UploadReply(200, "", "https://cdn/u"),
                                 JobReply(200, "", "job-1"), polls);
      TranscribeAnswersFirstTerminalPoll(agent.uploads, "sample.wav", UploadReply(200, "", "https://cdn/u"),
                                         JobReply(200, "", "job-1"), polls);
    }
  }
}
