/**
 * The decision-and-naming core of the audio monitor: which file-creation
 * events lead to a transcription, where the transcript of an audio file is
 * saved, and what one transcription run does to the file system.
 *
 * The speech-to-text provider is a black box: a client is a function from
 * the audio payload to an outcome, and every lemma below holds for every
 * such function.
 */
module AudioMonitor {
  import opened PosixPath

  datatype Option<T> = None | Some(value: T)

  /** Directory that receives the transcript files. */
  const TRANSCRIPT_DIRECTORY: string := "/tmp/transcripts"

  /** The audio extensions that are transcribed, in lower case. */
  const ALLOWED_EXTENSIONS: seq<string> := [".mp3", ".wav", ".flac", ".m4a", ".webm"]

  /** What is appended to the root of an audio file name to name its transcript. */
  const TRANSCRIPT_SUFFIX: string := "_transcript.txt"

  // ---------------------------------------------------------------------------
  // Filtering by extension

  /** The lower-cased final extension of a file name: empty exactly when the
      name has no extension, and otherwise starting with its '.'. */
  function FileExtension(filename: string): (e: string)
    ensures e == [] <==> SplitExt(filename).ext == []
    ensures e != [] ==> e[0] == '.'
  {
    var ext := SplitExt(filename).ext;
    if ext != [] then LowerAsciiAt(ext, 0); LowerAscii(ext) else LowerAscii(ext)
  }

  /** The check of `on_created`: the lower-cased final extension is on the
      allow-list. A name that passes has an extension, and a root whose last
      component is not made of dots only. */
  predicate IsAudioFileName(filename: string): (b: bool)
    ensures b ==> SplitExt(filename).ext != [] && NotOnlyDots(SplitExt(filename).root)
  {
    AllowedExtensionsShape();
    SplitExtFindsExtension(filename);
    FileExtension(filename) in ALLOWED_EXTENSIONS
  }

  /** A file name is a stem, not made of dots only, followed by an ending
      that is an allowed extension once lowered. */
  ghost predicate NamesAudio(name: string) {
    exists stem, ending :: name == stem + ending && !AllDots(stem) && LowerAscii(ending) in ALLOWED_EXTENSIONS
  }

  /** Every allowed extension is a '.' followed by at least one character
      that is neither '.' nor '/', the first of them 'm', 'w' or 'f'. */
  lemma AllowedExtensionsShape()
    ensures forall a :: a in ALLOWED_EXTENSIONS ==>
      |a| >= 2 && a[0] == '.' && '.' !in a[1..] && '/' !in a
      && (a[1] == 'm' || a[1] == 'w' || a[1] == 'f')
  {
    forall a | a in ALLOWED_EXTENSIONS
      ensures |a| >= 2 && a[0] == '.' && '.' !in a[1..] && '/' !in a
      && (a[1] == 'm' || a[1] == 'w' || a[1] == 'f')
    {
      assert a == ".mp3" || a == ".wav" || a == ".flac" || a == ".m4a" || a == ".webm";
    }
  }

  /** ASCII lowering turns a character into '.' only when it already is one. */
  lemma LowerCharDot(c: char)
    ensures LowerChar(c) == '.' <==> c == '.'
  {
  }

  /** An ending that is an allowed extension once lowered, after a stem not
      made of dots only, is exactly the extension `splitext` finds. */
  lemma {:induction false} ExtensionFromEnding(name: string, stem: string, ending: string)
    requires '/' !in name && name == stem + ending
    requires !AllDots(stem) && LowerAscii(ending) in ALLOWED_EXTENSIONS
    ensures SplitExt(name) == Split(stem, ending)
  {
    var a := LowerAscii(ending);
    AllowedExtensionsShape();
    assert ending[0] == '.' by {
      LowerAsciiAt(ending, 0);
      LowerCharDot(ending[0]);
    }
    forall k | 0 <= k < |ending[1..]| ensures ending[1..][k] != '.' {
      LowerAsciiAt(ending, k + 1);
      LowerCharDot(ending[k + 1]);
      assert a[1..][k] == a[k + 1];
    }
    forall k | 0 <= k < |ending| ensures ending[k] != '/' {
      assert ending[k] == name[|stem| + k];
    }
    forall k | 0 <= k < |stem| ensures stem[k] != '/' {
      assert stem[k] == name[k];
    }
    RFindIs(stem, '/', -1);
    SplitExtAt(stem, ending);
  }

  /** A file name passes the extension check exactly when it is a stem not
      made of dots only followed by an allowed extension in any ASCII case.
      So only the last extension matters, its case does not, and a dotfile
      such as `.wav` is not audio. */
  lemma {:induction false} AudioNameIff(name: string)
    requires '/' !in name
    ensures IsAudioFileName(name) <==> NamesAudio(name)
  {
    if IsAudioFileName(name) {
      var sp := SplitExt(name);
      AllowedExtensionsShape();
      assert sp.ext != [];
      SplitExtFindsExtension(name);
      var j :| RFind(sp.root, '/') < j < |sp.root| && sp.root[j] != '.';
      assert !AllDots(sp.root);
      assert name == sp.root + sp.ext;
    }
    if NamesAudio(name) {
      var stem, ending :| name == stem + ending && !AllDots(stem) && LowerAscii(ending) in ALLOWED_EXTENSIONS;
      ExtensionFromEnding(name, stem, ending);
    }
  }

  /** Names that are equal after ASCII lowering are both audio or both not:
      renaming a file by changing the case of its letters never changes
      whether it is transcribed. */
  lemma {:induction false} CaseInsensitive(name: string, other: string)
    requires '/' !in name && '/' !in other
    requires LowerAscii(name) == LowerAscii(other)
    ensures IsAudioFileName(name) <==> IsAudioFileName(other)
  {
    AudioNameIff(name);
    AudioNameIff(other);
    if NamesAudio(name) { NamesAudioByCase(name, other); }
    if NamesAudio(other) { NamesAudioByCase(other, name); }
  }

  /** `NamesAudio` only looks at the lowered name. */
  lemma NamesAudioByCase(x: string, y: string)
    requires LowerAscii(x) == LowerAscii(y)
    requires NamesAudio(x)
    ensures NamesAudio(y)
  {
    var stem, ending :| x == stem + ending && !AllDots(stem) && LowerAscii(ending) in ALLOWED_EXTENSIONS;
    LowerAsciiCut(stem, ending, y);
    NotAllDotsByCase(stem, y[..|stem|]);
    NamesAudioAt(y, |stem|, LowerAscii(ending));
  }

  /** A name whose lowered form is that of `stem + ending` splits, at the
      length of `stem`, into parts with the lowered forms of `stem` and `ending`. */
  lemma LowerAsciiCut(stem: string, ending: string, y: string)
    requires LowerAscii(stem + ending) == LowerAscii(y)
    ensures |stem| <= |y|
    ensures LowerAscii(y[..|stem|]) == LowerAscii(stem) && LowerAscii(y[|stem|..]) == LowerAscii(ending)
  {
    var k := |stem|;
    assert |y| == |LowerAscii(y)| == |LowerAscii(stem + ending)| == k + |ending|;
    LowerAsciiAppend(stem, ending);
    LowerAsciiSplit(y, k);
    SameCut(LowerAscii(stem), LowerAscii(ending), LowerAscii(y[..k]), LowerAscii(y[k..]));
  }

  /** Two concatenations that are equal, with first parts of equal length, have equal parts. */
  lemma SameCut(a: string, b: string, c: string, d: string)
    requires a + b == c + d && |a| == |c|
    ensures a == c && b == d
  {
    assert a == (a + b)[..|a|] && c == (c + d)[..|c|];
    assert b == (a + b)[|a|..] && d == (c + d)[|c|..];
  }

  /** A name cut at `k` into a stem that is not only dots and an ending that
      lowers to an allowed extension names audio. */
  lemma NamesAudioAt(name: string, k: int, ext: string)
    requires 0 <= k <= |name| && !AllDots(name[..k])
    requires ext in ALLOWED_EXTENSIONS && LowerAscii(name[k..]) == ext
    ensures NamesAudio(name)
  {
    assert name == name[..k] + name[k..];
  }

  /** Lowering never turns a character other than '.' into one, nor back. */
  lemma NotAllDotsByCase(s: string, t: string)
    requires LowerAscii(s) == LowerAscii(t) && !AllDots(s)
    ensures !AllDots(t)
  {
    var j :| 0 <= j < |s| && s[j] != '.';
    LowerAsciiAt(s, j);
    LowerAsciiAt(t, j);
    LowerCharDot(s[j]);
    LowerCharDot(t[j]);
  }

  // ---------------------------------------------------------------------------
  // Classifying file-system events

  /** A file-system event as the watcher delivers it. */
  datatype Event = Event(isDirectory: bool, srcPath: string)

  /** What `on_created` does with an event. */
  datatype Action = Ignore | Transcribe(path: string)

  /** The decision of `on_created`: directories are ignored, and a file is
      transcribed, under its own path, exactly when its base name names audio. */
  function Classify(event: Event): (action: Action)
    ensures event.isDirectory ==> action == Ignore
    ensures action == Ignore || action == Transcribe(event.srcPath)
    ensures action.Transcribe? <==> !event.isDirectory && NamesAudio(Basename(event.srcPath))
  {
    AudioNameIff(Basename(event.srcPath));
    if event.isDirectory then Ignore
    else if IsAudioFileName(Basename(event.srcPath)) then Transcribe(event.srcPath)
    else Ignore
  }

  /** A file created in a directory is classified by its own name alone. */
  lemma ClassifyFileIn(dir: string, name: string)
    requires '/' !in name
    ensures Classify(Event(false, dir + "/" + name)) ==
      if IsAudioFileName(name) then Transcribe(dir + "/" + name) else Ignore
  {
    BasenameAfterSlash(dir, name);
    BasenameOfName(name);
  }

  /** A name without '/' that does not start with '.', followed by a one-dot
      extension, splits into exactly those two parts. */
  lemma SplitPlainName(root: string, ext: string)
    requires '/' !in root && root != [] && root[0] != '.'
    requires ext != [] && ext[0] == '.' && '.' !in ext[1..] && '/' !in ext
    ensures SplitExt(root + ext) == Split(root, ext)
  {
    RFindIs(root, '/', -1);
    SplitExtAt(root, ext);
  }

  /** A name without '/' that does not start with '.', followed by a one-dot
      extension, is audio exactly when that extension, lowered, is allowed. */
  lemma PlainNameDecision(name: string, root: string, ext: string)
    requires name == root + ext
    requires '/' !in root && root != [] && root[0] != '.'
    requires ext != [] && ext[0] == '.' && '.' !in ext[1..] && '/' !in ext
    ensures IsAudioFileName(name) <==> LowerAscii(ext) in ALLOWED_EXTENSIONS
  {
    SplitPlainName(root, ext);
  }

  /** An upper-case extension is accepted: `CLIP.WAV` is transcribed. */
  lemma UpperCaseAccepted()
    ensures IsAudioFileName("CLIP.WAV")
  {
    PlainNameDecision("CLIP.WAV", "CLIP", ".WAV");
    assert LowerAscii(".WAV") == ALLOWED_EXTENSIONS[1];
  }

  /** Only the last extension counts: `a.txt.wav` is transcribed. */
  lemma LastExtensionAccepted()
    ensures IsAudioFileName("a.txt.wav")
  {
    PlainNameDecision("a.txt.wav", "a.txt", ".wav");
    assert LowerAscii(".wav") == ALLOWED_EXTENSIONS[1];
  }

  /** No ending whose second character is 't' or 'T' lowers to an allowed
      extension; so `.txt` is not allowed in any case (`.TXT`, `.Txt`, ...). */
  lemma TextNotAllowed(ending: string)
    requires |ending| >= 2 && (ending[1] == 't' || ending[1] == 'T')
    ensures LowerAscii(ending) !in ALLOWED_EXTENSIONS
  {
    LowerAsciiAt(ending, 1);
    assert LowerAscii(ending)[1] == 't';
    AllowedExtensionsShape();
  }

  /** Only the last extension counts: `clip.wav.txt` is ignored. */
  lemma LastExtensionRejected()
    ensures !IsAudioFileName("clip.wav.txt")
  {
    PlainNameDecision("clip.wav.txt", "clip.wav", ".txt");
    TextNotAllowed(".txt");
  }

  /** A text file is ignored: `clip.txt` is not transcribed. */
  lemma TextFileRejected()
    ensures !IsAudioFileName("clip.txt")
  {
    PlainNameDecision("clip.txt", "clip", ".txt");
    TextNotAllowed(".txt");
  }

  /** Leading dots never start an extension: the dotfile `.wav` has none and
      is not transcribed. */
  lemma DotfileRejected()
    ensures SplitExt(".wav") == Split(".wav", "")
    ensures !IsAudioFileName(".wav")
  {
    RFindIs(".wav", '/', -1);
    RFindIs(".wav", '.', 0);
  }

  /** The name `..` has no extension either. */
  lemma DotDotRejected()
    ensures SplitExt("..") == Split("..", "")
    ensures !IsAudioFileName("..")
  {
    RFindIs("..", '/', -1);
    RFindIs("..", '.', 1);
    assert AllDots(".."[0..1]);
  }

  // ---------------------------------------------------------------------------
  // Naming transcripts

  /** The transcript file name of a file name: its root (the name without its
      final extension) followed by `_transcript.txt`. */
  function TranscriptName(filename: string): (name: string)
    ensures '/' !in filename ==> '/' !in name
    ensures SplitExt(filename).ext == [] ==> name == filename + TRANSCRIPT_SUFFIX
  {
    var root := SplitExt(filename).root;
    assert filename == root + SplitExt(filename).ext;
    assert '/' !in filename ==> '/' !in root by {
      if '/' !in filename {
        forall m | 0 <= m < |root| ensures root[m] != '/' { assert root[m] == filename[m]; }
      }
    }
    root + TRANSCRIPT_SUFFIX
  }

  /** Where the transcript of the file at `filepath` is saved: the transcript
      name of its base name, directly inside the transcript directory. */
  function OutputPath(filepath: string): (out: string)
    ensures out == TRANSCRIPT_DIRECTORY + "/" + TranscriptName(Basename(filepath))
    ensures '/' !in TranscriptName(Basename(filepath))
    ensures Basename(out) == TranscriptName(Basename(filepath))
  {
    var name := TranscriptName(Basename(filepath));
    assert name[0] != '/' && TRANSCRIPT_DIRECTORY[|TRANSCRIPT_DIRECTORY| - 1] != '/';
    BasenameOfName(name);
    Join(TRANSCRIPT_DIRECTORY, name)
  }

  /** An audio name with a root not made of dots only and a one-dot
      extension gets the transcript name root + `_transcript.txt`, whatever
      the extension. */
  lemma TranscriptNameOf(root: string, ext: string)
    requires ext != [] && ext[0] == '.' && '.' !in ext[1..] && '/' !in ext
    requires NotOnlyDots(root)
    ensures TranscriptName(root + ext) == root + TRANSCRIPT_SUFFIX
  {
    SplitExtAt(root, ext);
  }

  /** `alice_voice.webm` is transcribed into `alice_voice_transcript.txt`. */
  lemma AliceExample()
    ensures TranscriptName("alice_voice.webm") == "alice_voice_transcript.txt"
  {
    SplitPlainName("alice_voice", ".webm");
    AliceSpelling();
  }

  /** The spelling facts the Alice example rests on, kept apart so that the
      example's own proof stays small. */
  lemma AliceSpelling()
    ensures "alice_voice" + ".webm" == "alice_voice.webm"
    ensures "alice_voice" + TRANSCRIPT_SUFFIX == "alice_voice_transcript.txt"
  {
  }

  /** The output path of an audio file in any directory is the transcript
      directory, a '/', the root of its name and `_transcript.txt`. */
  lemma OutputPathOf(dir: string, root: string, ext: string)
    requires '/' !in root && !AllDots(root)
    requires ext != [] && ext[0] == '.' && '.' !in ext[1..] && '/' !in ext
    ensures OutputPath(dir + "/" + (root + ext)) == TRANSCRIPT_DIRECTORY + "/" + (root + TRANSCRIPT_SUFFIX)
  {
    RFindIs(root, '/', -1);
    TranscriptNameOf(root, ext);
    BasenameAfterSlash(dir, root + ext);
    BasenameOfName(root + ext);
  }

  /** Two audio files with the same root, in any directories and with any
      extensions, share one output path: the later transcript overwrites the
      earlier one. */
  lemma SameRootSameOutput(dir1: string, dir2: string, root: string, ext1: string, ext2: string)
    requires '/' !in root && !AllDots(root)
    requires ext1 != [] && ext1[0] == '.' && '.' !in ext1[1..] && '/' !in ext1
    requires ext2 != [] && ext2[0] == '.' && '.' !in ext2[1..] && '/' !in ext2
    ensures OutputPath(dir1 + "/" + (root + ext1)) == OutputPath(dir2 + "/" + (root + ext2))
  {
    OutputPathOf(dir1, root, ext1);
    OutputPathOf(dir2, root, ext2);
  }

  /** The output path of a file is never the file itself, so saving a
      transcript never overwrites the audio it came from. */
  lemma {:induction false} OutputNeverSource(filepath: string)
    ensures OutputPath(filepath) != filepath
  {
    var b := Basename(filepath);
    var sp := SplitExt(b);
    var name := TranscriptName(b);
    assert name[|sp.root|] == '_';
    if |b| == |name| {
      assert b[|sp.root|] == sp.ext[0] == '.';
    }
    assert b != name;
  }

  // ---------------------------------------------------------------------------
  // The transcription worker

  /** A Python value that is either a string or `None`. */
  datatype Field = Null | Str(value: string)

  /** The part of the provider's response that the worker reads:
      `results.channels[i].alternatives[j].transcript`. Missing results and
      empty lists stand for every shape on which that lookup raises. */
  datatype Alternative = Alternative(transcript: Field)
  datatype Channel = Channel(alternatives: seq<Alternative>)
  datatype Results = Results(channels: seq<Channel>)
  datatype Response = Response(results: Option<Results>)

  /** What one call to the provider gives back: an error it raised, or a response. */
  datatype ProviderOutcome = ApiError(message: string) | Responded(response: Response)

  /** The provider client: the outcome of transcribing a given audio payload. */
  datatype Client = Client(transcribe: string -> ProviderOutcome)

  /** `response.results.channels[0].alternatives[0].transcript`: present
      exactly when the results and the first channel and alternative exist,
      and then the transcript of that alternative; `None` stands for the
      lookup raising. */
  function FirstTranscript(response: Response): (r: Option<Field>)
    ensures r.Some? <==>
      response.results.Some? && |response.results.value.channels| > 0
      && |response.results.value.channels[0].alternatives| > 0
    ensures r.Some? ==> r.value == response.results.value.channels[0].alternatives[0].transcript
  {
    match response.results
    case None => None
    case Some(results) =>
      if results.channels == [] || results.channels[0].alternatives == [] then None
      else Some(results.channels[0].alternatives[0].transcript)
  }

  /** Why a transcription run stopped; every cause ends in the same logging `except`. */
  datatype Cause =
    | ReadFailed          // the audio file is missing or cannot be opened
    | ProviderFailed(message: string)
    | MalformedResponse   // the transcript lookup raised
    | OpenFailed          // the output file cannot be opened for writing
    | NullTranscript      // the output file was opened, then `write(None)` raised

  /** What a run reports: the saved path and transcript, or the file name and the cause. */
  datatype Report = Saved(outputPath: string, transcript: string) | Failed(filename: string, cause: Cause)

  /** The file system after a run, and the run's report. */
  datatype Run = Run(files: map<string, string>, report: Report)

  /** The saving stage of `transcribe_file`: open `outputPath` for writing,
      which creates or empties it, then write the transcript into it. It
      succeeds exactly when the open succeeds and the transcript is a string;
      the file then holds exactly the transcript. */
  function Save(files: map<string, string>, denied: set<string>, filename: string, outputPath: string, transcript: Field): (run: Run)
    ensures run.report.Saved? <==> outputPath !in denied && transcript.Str?
    ensures run.report.Saved? ==>
      run.report == Saved(outputPath, transcript.value) && run.files == files[outputPath := transcript.value]
    ensures run.report.Failed? ==> run.report.filename == filename
    ensures run.report == Failed(filename, OpenFailed) <==> outputPath in denied
    ensures run.report == Failed(filename, NullTranscript) <==> outputPath !in denied && transcript.Null?
    ensures run.report.Failed? && run.report.cause != NullTranscript ==> run.files == files
    ensures run.report.Failed? && run.report.cause == NullTranscript ==> run.files == files[outputPath := ""]
  {
    if outputPath in denied then Run(files, Failed(filename, OpenFailed))
    else match transcript
      case Null => Run(files[outputPath := ""], Failed(filename, NullTranscript))
      case Str(text) => Run(files[outputPath := text], Saved(outputPath, text))
  }

  /** The stages of `transcribe_file` after the audio file is read: the
      provider's outcome, the transcript lookup, then saving. A provider
      error or a malformed response writes nothing; only saving touches the
      output path. */
  function Respond(files: map<string, string>, denied: set<string>, filename: string, outputPath: string, outcome: ProviderOutcome): (run: Run)
    ensures run.report.Saved? <==>
      && outcome.Responded? && FirstTranscript(outcome.response).Some?
      && FirstTranscript(outcome.response).value.Str? && outputPath !in denied
    ensures run.report.Saved? ==>
      && run.report == Saved(outputPath, FirstTranscript(outcome.response).value.value)
      && run.files == files[outputPath := run.report.transcript]
    ensures run.report.Failed? ==> run.report.filename == filename
    ensures run.report.Failed? && run.report.cause != NullTranscript ==> run.files == files
    ensures run.report.Failed? && run.report.cause == NullTranscript ==> run.files == files[outputPath := ""]
    ensures run.report.Failed? && run.report.cause == NullTranscript <==>
      outcome.Responded? && FirstTranscript(outcome.response) == Some(Null) && outputPath !in denied
    ensures outcome.ApiError? ==>
      run.files == files && run.report == Failed(filename, ProviderFailed(outcome.message))
    ensures outcome.Responded? && FirstTranscript(outcome.response).None? ==>
      run.files == files && run.report == Failed(filename, MalformedResponse)
    ensures outcome.Responded? && FirstTranscript(outcome.response).Some? ==>
      run == Save(files, denied, filename, outputPath, FirstTranscript(outcome.response).value)
  {
    match outcome
    case ApiError(message) => Run(files, Failed(filename, ProviderFailed(message)))
    case Responded(response) =>
      match FirstTranscript(response)
      case None => Run(files, Failed(filename, MalformedResponse))
      case Some(transcript) => Save(files, denied, filename, outputPath, transcript)
  }

  /** One run of `transcribe_file` on the file system `files`, where opening
      any path in `denied` fails: the stages in order, the first failure
      ending the run.
      A run saves a transcript exactly when the audio file can be read, the
      provider responds, the response holds a string transcript at channel 0,
      alternative 0, and the output path can be opened; the output then holds
      exactly that transcript. A failed run reports the base name of the file
      and writes nothing, except that a `None` transcript after a successful
      open leaves an emptied output file. Each failing stage is reported
      with its own cause: an unreadable audio file, the provider's error
      message, a malformed response, an output that cannot be opened. */
  function Transcription(files: map<string, string>, denied: set<string>, filepath: string, deepgram: Client): (run: Run)
    ensures run.report.Saved? <==>
      && filepath in files && filepath !in denied && OutputPath(filepath) !in denied
      && deepgram.transcribe(files[filepath]).Responded?
      && FirstTranscript(deepgram.transcribe(files[filepath]).response).Some?
      && FirstTranscript(deepgram.transcribe(files[filepath]).response).value.Str?
    ensures run.report.Saved? ==>
      && run.report.outputPath == OutputPath(filepath)
      && FirstTranscript(deepgram.transcribe(files[filepath]).response) == Some(Str(run.report.transcript))
      && run.files == files[OutputPath(filepath) := run.report.transcript]
    ensures run.report.Failed? ==> run.report.filename == Basename(filepath)
    ensures run.report.Failed? && run.report.cause != NullTranscript ==> run.files == files
    ensures run.report.Failed? && run.report.cause == NullTranscript ==> run.files == files[OutputPath(filepath) := ""]
    ensures run.report.Failed? && run.report.cause == NullTranscript <==>
      && filepath in files && filepath !in denied && OutputPath(filepath) !in denied
      && deepgram.transcribe(files[filepath]).Responded?
      && FirstTranscript(deepgram.transcribe(files[filepath]).response) == Some(Null)
    ensures filepath !in files || filepath in denied ==>
      run.files == files && run.report == Failed(Basename(filepath), ReadFailed)
    ensures filepath in files && filepath !in denied ==>
      var outcome := deepgram.transcribe(files[filepath]);
      && (outcome.ApiError? ==>
            run.files == files && run.report == Failed(Basename(filepath), ProviderFailed(outcome.message)))
      && (outcome.Responded? && FirstTranscript(outcome.response).None? ==>
            run.files == files && run.report == Failed(Basename(filepath), MalformedResponse))
      && (outcome.Responded? && FirstTranscript(outcome.response).Some? && OutputPath(filepath) in denied ==>
            run.files == files && run.report == Failed(Basename(filepath), OpenFailed))
  {
    var filename := Basename(filepath);
    if filepath !in files || filepath in denied then Run(files, Failed(filename, ReadFailed))
    else Respond(files, denied, filename, OutputPath(filepath), deepgram.transcribe(files[filepath]))
  }

  /** A run changes at most one entry of the file system, the output path,
      and never the audio file it reads. */
  lemma TranscriptionFrame(files: map<string, string>, denied: set<string>, filepath: string, deepgram: Client)
    ensures var run := Transcription(files, denied, filepath, deepgram);
      && run.files - {OutputPath(filepath)} == files - {OutputPath(filepath)}
      && (filepath in run.files <==> filepath in files)
      && (filepath in files ==> run.files[filepath] == files[filepath])
  {
    var run := Transcription(files, denied, filepath, deepgram);
    OutputNeverSource(filepath);
    if run.report.Saved? {
      UpdateElsewhere(files, OutputPath(filepath), run.report.transcript, filepath);
    } else if run.report.cause == NullTranscript {
      UpdateElsewhere(files, OutputPath(filepath), "", filepath);
    }
  }

  /** Writing one path of a file system leaves every other path as it was. */
  lemma UpdateElsewhere(files: map<string, string>, out: string, text: string, other: string)
    requires other != out
    ensures files[out := text] - {out} == files - {out}
    ensures other in files[out := text] <==> other in files
    ensures other in files ==> files[out := text][other] == files[other]
  {
  }

  /** The file system the monitor works on: file contents by path, and the
      paths whose opening fails (missing directories, permissions). */
  class Disk {
    var files: map<string, string>
    var denied: set<string>

    constructor (files: map<string, string>, denied: set<string>)
      ensures this.files == files && this.denied == denied
    {
      this.files := files;
      this.denied := denied;
    }

    /** `open(path, "rb").read()`: the whole content, or `None` when the open raises. */
    method ReadAll(path: string) returns (content: Option<string>)
      ensures content.Some? <==> path in files && path !in denied
      ensures content.Some? ==> content.value == files[path]
    {
      if path in files && path !in denied {
        content := Some(files[path]);
      } else {
        content := None;
      }
    }

    /** `open(path, "w")`: creates the file or empties it, unless opening fails. */
    method OpenForWriting(path: string) returns (isOpen: bool)
      modifies this
      ensures isOpen == (path !in old(denied))
      ensures files == if isOpen then old(files)[path := ""] else old(files)
      ensures denied == old(denied)
    {
      isOpen := path !in denied;
      if isOpen {
        files := files[path := ""];
      }
    }

    /** `outfile.write(text)` on a file opened for writing: appends the text. */
    method Write(path: string, text: string)
      requires path in files
      modifies this
      ensures files == old(files)[path := old(files)[path] + text]
      ensures denied == old(denied)
    {
      files := files[path := files[path] + text];
    }
  }

  /** The `with open(output_path, "w")` block of `transcribe_file`. */
  method SaveTranscript(disk: Disk, filename: string, outputPath: string, transcript: Field) returns (report: Report)
    modifies disk
    ensures disk.files == Save(old(disk.files), old(disk.denied), filename, outputPath, transcript).files
    ensures report == Save(old(disk.files), old(disk.denied), filename, outputPath, transcript).report
    ensures disk.denied == old(disk.denied)
  {
    var isOpen := disk.OpenForWriting(outputPath);
    if !isOpen {
      return Failed(filename, OpenFailed);
    }
    if transcript.Null? {
      return Failed(filename, NullTranscript);
    }
    assert [] + transcript.value == transcript.value;
    disk.Write(outputPath, transcript.value);
    report := Saved(outputPath, transcript.value);
  }

  /** `transcribe_file`: read the audio file, call the provider, look up the
      transcript, save it. Every failure is caught and reported, none escapes. */
  method TranscribeFile(filepath: string, deepgram: Client, disk: Disk) returns (report: Report)
    modifies disk
    ensures disk.files == Transcription(old(disk.files), old(disk.denied), filepath, deepgram).files
    ensures report == Transcription(old(disk.files), old(disk.denied), filepath, deepgram).report
    ensures disk.denied == old(disk.denied)
  {
    var filename := Basename(filepath);
    // Reading stage: a missing or unreadable file ends the run.
    var bufferData := disk.ReadAll(filepath);
    if bufferData.None? {
      return Failed(filename, ReadFailed);
    }
    // Provider stage: an error the client raises ends the run.
    var outcome := deepgram.transcribe(bufferData.value);
    if outcome.ApiError? {
      return Failed(filename, ProviderFailed(outcome.message));
    }
    // Lookup stage: a response without channel 0, alternative 0 ends the run.
    var transcript := FirstTranscript(outcome.response);
    if transcript.None? {
      return Failed(filename, MalformedResponse);
    }
    // Saving stage.
    var transcriptFilename := TranscriptName(filename);
    var outputPath := Join(TRANSCRIPT_DIRECTORY, transcriptFilename);
    assert outputPath == OutputPath(filepath);
    report := SaveTranscript(disk, filename, outputPath, transcript.value);
  }

  /** The watchdog handler: it holds the provider client it was built with. */
  class AudioHandler {
    const deepgram: Client

    constructor (deepgramClient: Client)
      ensures deepgram == deepgramClient
    {
      deepgram := deepgramClient;
    }

    /** `on_created`: ignore the event, or transcribe the created file. An
        ignored event leaves the file system as it was and reports nothing. */
    method OnCreated(event: Event, disk: Disk) returns (report: Option<Report>)
      modifies disk
      ensures Classify(event) == Ignore ==> report == None && disk.files == old(disk.files)
      ensures Classify(event) != Ignore ==>
        var run := Transcription(old(disk.files), old(disk.denied), event.srcPath, deepgram);
        report == Some(run.report) && disk.files == run.files
      ensures disk.denied == old(disk.denied)
    {
      if event.isDirectory {
        return None;
      }
      var filepath := event.srcPath;
      var filename := Basename(filepath);
      var fileExtension := FileExtension(filename);
      assert Classify(event) == if fileExtension in ALLOWED_EXTENSIONS then Transcribe(filepath) else Ignore;
      if fileExtension in ALLOWED_EXTENSIONS {
        var saved := TranscribeFile(filepath, deepgram, disk);
        report := Some(saved);
      } else {
        report := None;
      }
    }
  }
}
