# Voice-agent backend: request handling

This project models the request-handling logic of the Day 8 voice-agent backend
(`DAY8/main.py`). It covers five HTTP endpoints:

- `POST /upload-audio` stores an audio upload in the `uploads` directory.
- `POST /transcribe` sends a stored file to AssemblyAI. There are three stages: upload the bytes, start a transcription job, and poll the job at most 30 times, two seconds apart.
- `POST /tts/echo` stores an upload and runs its own copy of the transcription stages. It then has Murf speak the transcription in the voice `en-IN-aarav`.
- `POST /generate-audio` asks Murf for speech with a caller-chosen voice and passes `audioFile` through.
- `POST /llm/query` asks Gemini (`gemini-1.5-flash`) for an answer, provided an API key is configured.

The providers (AssemblyAI, Murf, Gemini) are oracles. Each reply a handler would receive is a value passed in:

- `UploadReply` and `JobReply` are AssemblyAI's replies to the upload and the job start.
- `polls: seq<PollReply>` holds the reply to the j-th status poll.
- `MurfReply` and `GeminiReply` are the other two providers' replies.

What a handler does to the outside world is returned as an ordered `seq<Effect>`: each provider request with its payload, and each `Sleep(2)`. Statements such as "no job was started", "at most 30 polls" and "one sleep per non-terminal status" are made about this sequence.

The `uploads` directory is the `map<string, seq<byte>>` field of class `Server.VoiceAgent`.

Modules:

- `Common`: bytes, `Option`, `Result`, prefix test.
- `Providers`: reply types, `Effect`, and the counters over effects.
- `Polling`: the poll loop as a function, and its properties.
- `Endpoints`: each endpoint's answer as a function of the store and the replies; the two stateless endpoints; the lemmas about the stateful ones.
- `Server`: the class and the imperative handlers with their loops. `UploadAudio` states its new store and answer directly. The transcribe and echo handlers, and their poll loops, are each proved to produce exactly what a function in `Endpoints` or `Polling` specifies.

Error bodies carry a `Fault`. `Endpoints.Message` gives the exact text each fault produces under `"error"`.

## Model

| member | source | states |
|---|---|---|
| Server.VoiceAgent.constructor | DAY8/main.py:35-37 | The upload directory exists at start-up and holds whatever was already in it. |
| Server.VoiceAgent.UploadAudio | DAY8/main.py:39-54 | A content type not starting with `audio/` gives the invalid-file-type error and leaves the store unchanged. Otherwise the bytes are stored under the filename, replacing any earlier entry while every other entry keeps its presence and contents. The answer echoes the filename and content type, gives `file_size` equal to the stored length, and gives the path `uploads/<filename>`. |
| Server.VoiceAgent.TranscribeAudio | DAY8/main.py:87-137 | Answer and provider requests are exactly `TranscribeSpec`: a missing file gives "File not found." with no request; otherwise the three stages run on the stored bytes. |
| Server.TranscribeStored | DAY8/main.py:98-137 | The upload, job-start and poll stages, run in order on the stored bytes, stop at the first failing stage with that stage's error and give exactly `TranscriptionStages`. |
| Server.PollTranscript | DAY8/main.py:123-137 | The early-return poll loop of `/transcribe` gives the outcome and the requests/sleeps of the reference loop `PollFrom` over attempts 0..30. |
| Server.PollTranscriptForEcho | DAY8/main.py:177-191 | The echo handler's `break` / loop-`else` version of the poll loop gives the same outcome and effects as `PollFrom`. |
| Server.VoiceAgent.TtsEcho | DAY8/main.py:139-216 | The store is updated exactly when the content type is audio, as in the upload endpoint. Answer and requests are exactly `EchoSpec`: gate, transcription stages on the stored bytes, then Murf with the fixed voice. |
| Endpoints.GenerateAudio | DAY8/main.py:68-85 | Exactly one Murf request with the caller's voice and text. The answer is an error iff the status is not 200, and that error carries the reply body. A 200 reply passes `audioFile` through unchanged, even when absent or empty. |
| Endpoints.LlmQuery | DAY8/main.py:218-229 | With no key or an empty key, it answers "Gemini API key not configured." and makes no model call. With a key, the model named `gemini-1.5-flash` is called once with the text. The answer is the generated text iff the call returned. A raised exception becomes the "Failed to generate response from Gemini" error, never anything else. |
| Providers.Classify | DAY8/main.py:130-133 | Reading a polled body by its `status` string: the reply keeps the exact status it was read from, "completed" carries the `text` and "error" carries the `error`, and any other status is a non-terminal reply (a status of "completed" or "error" cannot be read as non-terminal). |
| Polling.FirstTerminal | DAY8/main.py:125-134 | Reference definition of where the loop stops: every reply before index k is neither "completed" nor "error", and index k is one of them unless k is the attempt bound. |
| Polling.PollResumesAfterWaiting | DAY8/main.py:125-135 | After i non-terminal replies, the loop has made i polls, each followed by a 2-second sleep, and continues as the loop started from attempt i. |
| Polling.PollEndsAtFirstTerminal | DAY8/main.py:124-137 | The loop ends at the first terminal reply. "completed" yields its text. "error" yields its error. With no terminal reply within the bound it times out. It polls k+1 times (or every attempt when timing out), sleeps k times for 2k seconds in total, and never calls Murf. |
| Polling.SleepsMatchNonTerminalPolls | DAY8/main.py:125-135 | The number of sleeps equals the number of polled replies that were neither "completed" nor "error". |
| Polling.PollLoopIsBounded | DAY8/main.py:124-135 | At most 30 polls, one 2-second sleep per non-terminal polled reply, and at most 60 seconds asleep. |
| Endpoints.StagesPollingIsBounded | DAY8/main.py:98-135 | The same bounds hold for the three stages together, whichever stage fails. |
| Endpoints.TranscribePollingIsBounded | DAY8/main.py:87-137 | The same bounds hold for a whole `/transcribe` request, including a missing file. |
| Endpoints.TranscribeStopsAtFirstFailedStage | DAY8/main.py:89-119 | A missing file answers "File not found." with no provider request. A non-200 upload answers the upload error after the single upload request, with no job started. A non-200 job start answers the start error, with nothing polled. |
| Endpoints.TranscribeAnswersFirstTerminalPoll | DAY8/main.py:123-137 | Once the job has started, the answer is decided by the first terminal poll reply: its text, or "Transcription failed: <error>", or the timeout after 30 non-terminal replies. The number of polls is the index of that reply plus one. |
| Endpoints.StagesNeverSynthesise | DAY8/main.py:150-191 | Echo's transcription stages make no Murf request, whatever the replies. |
| Endpoints.EchoSynthesisesOnlyTheTranscription | DAY8/main.py:193-204 | Echo calls Murf iff the upload passed the gate and transcription completed, and then exactly once, with voice `en-IN-aarav` and text equal to the transcription. |
| Endpoints.EchoSucceedsWithBoth | DAY8/main.py:206-216 | Echo answers successfully iff all of these hold: the gate passes, all three stages succeed, Murf replies 200, and `audioFile` is non-empty. A successful answer carries both the transcription and that (non-empty) audio URL. Every other outcome is an error. |
| Endpoints.EchoSynthesisVersusGenerateAudio | DAY8/main.py:206-211 | On the same Murf reply, echo's synthesis makes the same request that `/generate-audio` would. On a non-200 reply both fail and carry the same reply body, but under different messages ("Failed to generate audio with Murf: …" against "Failed to generate audio: …"). On a usable URL both hand it back. On a 200 reply with no usable `audioFile`, echo reports "No audio file returned from Murf API", an error distinct from a failed Murf request, while `/generate-audio` passes the value through. |
| Endpoints.EchoTranscribesLikeTranscribe | DAY8/main.py:150-191 | Given the same replies, echo's transcription of its upload behaves like `/transcribe` on the stored file: the same requests in the same order, the identical error when transcription fails, and the same transcription when echo succeeds. |

## Left out

- `GET /voices` (`list_voices`) passes a Murf reply straight through and has no logic of its own. FastAPI routing, CORS, the static mount and dotenv loading are framework set-up.
- HTTP requests, JSON decoding and the AssemblyAI/Gemini SDKs are represented only by their replies, passed in as values. The effects record each request's payload, but not URLs or the API-key headers.
- Malformed provider replies are out of scope. The source indexes `upload_url`, `id`, `status`, `text` and `error` directly and raises on a missing key. The reply datatypes always carry these fields, so every reply is well formed by construction.
- Poll replies are values of the `PollReply` datatype: `Completed`, `Errored`, or `InProgress` with any other status string; the type of that string excludes "completed" and "error". `Providers.Classify` is the handler's test on the status string. The JSON parsing around it is out of scope.
- Server.VoiceAgent.TranscribeAudio, Server.VoiceAgent.TtsEcho, Server.TranscribeStored, Server.PollTranscript and Server.PollTranscriptForEcho require at least 30 poll replies. This is a demand on the oracle that supplies them, not on the client; the loop never reads more than 30.
- `audioFile` values that are not strings, and a `None` transcription text, are not modelled. A Murf `audioFile` is an optional string, and Python's truth test on it is "present and non-empty".
- `time.sleep` is counted and its duration recorded; no clock is modelled.
- `os.path.join` semantics are not modelled: absolute filenames and path traversal are ignored. The filename is an opaque key into the store, and the reported path is `uploads/` followed by the filename.
- Server.VoiceAgent.UploadAudio and Server.VoiceAgent.TtsEcho do not model two crashes:
  - A multipart part sent without a Content-Type header makes the content-type test raise, and the request fails with a server error rather than an error body. Here the content type is always a string.
  - An empty filename, `.` or `..` names a directory, so the write to it raises. Here such a name is stored as an ordinary key and answered as a successful upload.
- Server.VoiceAgent.TranscribeAudio does not model the same directory names. For an empty filename, `.` or `..`, the joined path names a directory, which exists, so the source's existence check passes and opening the path for reading raises; the request fails with a server error and makes no provider request. Here the name is an ordinary key: absent, it answers "File not found."; present, the three stages run on its bytes.
- Other disk-write failures, concurrent requests and same-filename races are not modelled.
- `DAY2/murf_tts_project/main.py`, `DAY3/voice_agent_project/backend/main.py` and `DAY6/main.py` are not part of this model. They repeat the status check and `audioFile` pass-through of `Endpoints.GenerateAudio`.
