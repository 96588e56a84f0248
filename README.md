# Audio monitor: filtering, naming and the transcription worker

This project models, in Dafny, the decision-and-naming core of the audio
monitor script `audio_monitor.py`. The script watches a directory. For
each new audio file it calls a speech-to-text provider (Deepgram) and saves
the transcript as a text file in `/tmp/transcripts`.

The model has two modules.

- `PosixPath` (`posix_path.dfy`) models the parts of Python's `posixpath`
  module and of `str` that the script uses:
  - `os.path.basename` is `Basename`;
  - `os.path.splitext` is `SplitExt`, with Python's rule that leading dots
    of a name never start an extension;
  - `os.path.join` is `Join`;
  - `str.lower` is `LowerAscii`, restricted to ASCII;
  - `str.rfind` is `RFind`, which `Basename` and `SplitExt` are built on.
- `AudioMonitor` (`audio_monitor.dfy`) models the script itself:
  - the constants `TRANSCRIPT_DIRECTORY` and `ALLOWED_EXTENSIONS`;
  - the extension check of `on_created`, as `IsAudioFileName` and `Classify`;
  - the transcript naming, as `TranscriptName` and `OutputPath`;
  - `transcribe_file`, as the imperative method `TranscribeFile`. It works
    on a `Disk` object that holds the file map and the set of paths whose
    `open` fails. It is proved against the pure specification
    `Transcription`, which is built from the stages `Respond` and `Save`;
  - the `AudioHandler` class, with its `deepgram` field, its constructor and
    `OnCreated`.

The provider is a `Client`: any function from the audio payload to an
outcome. The outcome is either an error the SDK raised or a response. The
response shape covers exactly what the script reads:
`results.channels[0].alternatives[0].transcript`. Every lemma holds for
every client, so the worker is verified against every provider behaviour.

In `transcribe_file`, every failure (a missing or unreadable audio file, a
provider error, a malformed response, an output file that cannot be opened)
lands in the single `except Exception` block, which only logs. The model
makes this explicit: each failure becomes a `Failed(filename, cause)`
report, and nothing escapes.

If the provider's transcript is `None`, `open(output_path, "w")` has
already created or emptied the output file before `write(None)` raises. The
model keeps that effect: the run fails with `NullTranscript` and leaves an
empty output file.

## Model

| member | source | states |
|---|---|---|
| PosixPath.RFind | audio_monitor.py:32 | `str.rfind` gives -1 or an index in range, and the character found there is the one searched for. |
| PosixPath.RFindIsLast | audio_monitor.py:32 | No occurrence of the character comes after the index found, and the result is -1 exactly when the character does not occur (both directions). |
| PosixPath.Basename | audio_monitor.py:32 | The base name of a path holds no '/'. |
| PosixPath.BasenameIsLongestSuffix | audio_monitor.py:32 | The base name ends the path, and the part before it is empty or ends in '/'. With the previous row, it is the longest suffix free of '/'. |
| PosixPath.BasenameOfName | audio_monitor.py:84 | A name without '/' is its own base name. |
| PosixPath.BasenameAfterSlash | audio_monitor.py:84 | Whatever comes before a '/' does not change the base name: `Basename(x + "/" + y) == Basename(y)`. |
| PosixPath.SplitExt | audio_monitor.py:52 | Root and extension concatenate back to the path. The extension is empty, or is a '.' followed by text with no '.' and no '/'. |
| PosixPath.SplitExtFindsExtension | audio_monitor.py:85 | A path has an extension exactly when its last component holds a '.' after some character other than '.'. The root then does not end in a component made only of dots, so dotfiles such as `.wav` and `..` have no extension. |
| PosixPath.SplitExtAt | audio_monitor.py:52 | A root that is not made only of dots, followed by a one-dot extension, splits back into exactly that root and that extension. |
| PosixPath.Join | audio_monitor.py:53 | The joined path has the base name of the second component. |
| PosixPath.LowerAscii | audio_monitor.py:85 | Lowering keeps the length. |
| PosixPath.LowerAsciiAt | audio_monitor.py:85 | Lowering lowers each character in place. |
| PosixPath.LowerAsciiAppend | audio_monitor.py:85 | Lowering distributes over concatenation. |
| PosixPath.LowerAsciiSplit | audio_monitor.py:85 | Lowering a string is lowering its two parts at any cut. |
| AudioMonitor.AllowedExtensionsShape | audio_monitor.py:20 | Every allowed extension is a '.' followed by at least one character, none of them '.' or '/'. |
| AudioMonitor.FileExtension | audio_monitor.py:85 | The lowered extension is empty exactly when the name has no extension, and otherwise it starts with '.'. |
| AudioMonitor.IsAudioFileName | audio_monitor.py:85-88 | A name passes the extension check only if it has an extension and its root does not end in a component made only of dots. |
| AudioMonitor.ExtensionFromEnding | audio_monitor.py:85 | A name made of a stem that is not only dots, followed by an ending that lowers to an allowed extension, splits into exactly that stem and that ending. |
| AudioMonitor.AudioNameIff | audio_monitor.py:84-88 | The extension check accepts a name exactly when the name is a stem that is not only dots, followed by an allowed extension in any ASCII case (both directions). |
| AudioMonitor.NamesAudioByCase | audio_monitor.py:85 | Whether a name names audio depends only on its lowered form. |
| AudioMonitor.LowerAsciiCut | audio_monitor.py:85 | Two names with the same lowered form, cut at the same place, give parts with the same lowered forms. |
| AudioMonitor.NotAllDotsByCase | audio_monitor.py:85 | Lowering neither creates nor removes a '.', so a stem that is not only dots stays so in any case. |
| AudioMonitor.CaseInsensitive | audio_monitor.py:85-88 | Two names that are equal after ASCII lowering are both accepted or both ignored. |
| AudioMonitor.Classify | audio_monitor.py:78-97 | Directory events are always ignored. Otherwise the file is transcribed under its own path exactly when its base name names audio, and ignored otherwise. |
| AudioMonitor.ClassifyFileIn | audio_monitor.py:84-88 | A file created in any directory is classified by its own name alone. |
| AudioMonitor.PlainNameDecision | audio_monitor.py:85-88 | A plain name (no '/', not starting with '.') with a one-dot extension is accepted exactly when its lowered extension is allowed. |
| AudioMonitor.UpperCaseAccepted | audio_monitor.py:85-88 | `CLIP.WAV` is accepted. |
| AudioMonitor.LastExtensionAccepted | audio_monitor.py:85-88 | `a.txt.wav` is accepted, because only the last extension counts. |
| AudioMonitor.TextNotAllowed | audio_monitor.py:20 | No ending whose second character is 't' or 'T' lowers to an allowed extension. So `.txt` is not allowed in any case (`.TXT`, `.Txt`, ...). |
| AudioMonitor.LastExtensionRejected | audio_monitor.py:85-88 | `clip.wav.txt` is ignored. |
| AudioMonitor.TextFileRejected | audio_monitor.py:85-88 | `clip.txt` is ignored. |
| AudioMonitor.DotfileRejected | audio_monitor.py:85-88 | The dotfile `.wav` has no extension and is ignored. |
| AudioMonitor.DotDotRejected | audio_monitor.py:85-88 | The name `..` has no extension and is ignored. |
| AudioMonitor.TranscriptName | audio_monitor.py:52 | The transcript name of a name without '/' holds no '/'. A name without an extension keeps all of itself: `README` gives `README_transcript.txt` and `.wav` gives `.wav_transcript.txt`. |
| AudioMonitor.OutputPath | audio_monitor.py:52-53 | The output path is `/tmp/transcripts` + '/' + the transcript name of the base name. That name holds no '/', so it is the output's base name and the output lies directly inside the transcript directory. |
| AudioMonitor.TranscriptNameOf | audio_monitor.py:52 | A root that is not only dots, followed by a one-dot extension, gets the transcript name root + `_transcript.txt`, whatever the extension. |
| AudioMonitor.AliceExample | audio_monitor.py:52 | `alice_voice.webm` gets the transcript name `alice_voice_transcript.txt`. |
| AudioMonitor.OutputPathOf | audio_monitor.py:52-53 | The output path of `dir/root.ext` is `/tmp/transcripts/root_transcript.txt`, for any directory. |
| AudioMonitor.SameRootSameOutput | audio_monitor.py:52-53 | Two audio files with the same root, in any directories and with any extensions, share one output path, so the later transcript overwrites the earlier one. |
| AudioMonitor.OutputNeverSource | audio_monitor.py:52-56 | The output path of a file is never the file itself. |
| AudioMonitor.FirstTranscript | audio_monitor.py:49 | The transcript lookup succeeds exactly when results, channel 0 and alternative 0 all exist, and then it yields that alternative's transcript. |
| AudioMonitor.Save | audio_monitor.py:55-56 | Saving succeeds exactly when the output opens and the transcript is a string, and the output then holds exactly the transcript. It fails with `OpenFailed` exactly when the output is denied, and then writes nothing. It fails with `NullTranscript` exactly when the output opens and the transcript is `None`, and then leaves an emptied output file. |
| AudioMonitor.Respond | audio_monitor.py:41-56 | After the read, a run saves exactly when the provider responds with a string transcript at channel 0, alternative 0 and the output opens. A provider error fails with `ProviderFailed` and its message, and a response without channel 0, alternative 0 fails with `MalformedResponse`; both write nothing. A found transcript goes to `Save`. It fails with `NullTranscript` exactly when the found transcript is `None` and the output opens, and that is the only failure that writes (an emptied file). |
| AudioMonitor.Transcription | audio_monitor.py:24-67 | A run saves exactly when the audio file is readable, the provider responds with a string transcript at channel 0, alternative 0, and the output path opens. The output then holds exactly that transcript. A failed run reports the base name and writes nothing, except for the emptied file of a `None` transcript, which happens exactly when the file reads, the provider responds with `None` there and the output opens. An unreadable file fails with `ReadFailed`; after a read, a provider error fails with `ProviderFailed`, a response without channel 0, alternative 0 with `MalformedResponse`, and a denied output with `OpenFailed`, all writing nothing. |
| AudioMonitor.TranscriptionFrame | audio_monitor.py:24-67 | A run changes no entry of the file map other than the output path, and it never changes or removes the audio file it reads. |
| AudioMonitor.Disk.constructor | audio_monitor.py:37-56 | A disk starts with exactly the given file map and the given set of paths whose `open` fails. The worker reads the audio and writes the transcript through it. |
| AudioMonitor.Disk.ReadAll | audio_monitor.py:37-38 | Reading yields the whole content exactly when the file exists and opens. |
| AudioMonitor.Disk.OpenForWriting | audio_monitor.py:55 | Opening for writing fails exactly on denied paths. Otherwise it creates or empties the file. |
| AudioMonitor.Disk.Write | audio_monitor.py:56 | Writing appends the text to the open file and changes nothing else. |
| AudioMonitor.SaveTranscript | audio_monitor.py:55-56 | The `with open(...)` block leaves the file map and the report that `Save` specifies. |
| AudioMonitor.TranscribeFile | audio_monitor.py:24-67 | The imperative worker leaves exactly the file map and the report of `Transcription`, and it never raises. |
| AudioMonitor.AudioHandler.constructor | audio_monitor.py:75-76 | The handler keeps the client it is given. |
| AudioMonitor.AudioHandler.OnCreated | audio_monitor.py:78-97 | An event that `Classify` ignores reports nothing and leaves the files as they were. Any other event runs `Transcription` on the event's path with the handler's client. |

## Left out

- The Deepgram SDK is not modelled. Client construction (audio_monitor.py:106) and the request options at :41-46 are left out; the provider is any function from payload to outcome.
- The watchdog `Observer`, `run_monitor` and its `while True: time.sleep(1)` loop (audio_monitor.py:101-141) are left out. They are operating-system event plumbing and an endless interactive loop.
- `time.sleep(1)` before transcription (audio_monitor.py:93) is left out. It is a timing heuristic with no effect on the logic.
- The API-key fallback (audio_monitor.py:12) and the directory creation with `os.makedirs` (audio_monitor.py:113-119) are left out. They are start-up configuration.
- The `WATCH_DIRECTORY` constant (audio_monitor.py:15) is left out. Only `run_monitor` uses it (audio_monitor.py:113-115, :124, :127), and `run_monitor` is left out.
- All `print` logging is left out, including the 80-character transcript snippet (audio_monitor.py:59). A run's log line is represented by its `Report`.
- The second `except Exception` (audio_monitor.py:66-67) is not modelled. It is unreachable, because the clause at :61 already catches every `Exception`.
- LowerAscii: lowers ASCII letters only. This is exact for the extension check. Under Unicode rules only two non-ASCII characters lower to text with ASCII in it: U+212A (Kelvin sign) gives 'k', and U+0130 gives 'i' followed by U+0307, two code points. Neither 'k' nor 'i' occurs in any allowed extension, and U+0307 is not ASCII. So no extension holding a non-ASCII character passes the check, under Python's lowering or this one, and the check is exact. Non-ASCII characters before the extension do not matter: `é.wav` passes in both.
- The file map stores contents as text. The script reads the audio as bytes and writes the transcript as UTF-8, and the model does not tell these apart. The model also has no encoding errors.
- Disk.Write: a write is atomic. A write that fails part-way is not modelled.
- TranscriptionFrame: the file map compares paths as strings. Its guarantee holds per path string, not across symlinks, hard links or other spellings of the same file (`a//b`, `./b`).
- Concurrency is not modelled: several handler calls running at once, or files changing during a run.
- Client: the provider is a deterministic function of the payload for each client. The lemmas hold for every client, which covers any fixed behaviour, but not a provider whose answer changes between two identical calls.
- A transcript that is neither a string nor `None` is not modelled. `Field` has only those two cases.
- The wider system in which the script is embedded differs from the script. That system has an upload endpoint and a result store, deletes the source audio after transcription and persists an error record on failure. The script does neither: it never deletes the audio file, and a failure only logs. The model follows the script.
