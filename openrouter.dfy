/** The AI diagnosis call: the chat history is copied, image analyses and audio transcriptions are
    merged into the last user message as text, a fixed system prompt is put in front, and the
    completion service's answer is returned. The vision service, the transcription service and
    the completion service are inputs: what each answered for each file. */
module OpenRouter {
  import opened Common

  const DefaultBaseUrl := "http://localhost:3000"
  const DefaultModel := "google/gemini-2.5-flash"
  const SystemPrompt := "You are a helpful medical assistant. Provide preliminary health information and recommendations based on symptoms. Always remind users to consult with healthcare professionals for proper diagnosis and treatment. Be empathetic , clear and very very concise in your responses. Respond in 200 words or less."
  const NoApiKey := "OpenRouter API key not configured"
  const ImageFailureNote := "[Note: Image analysis failed. Please describe the image in text.]"
  const AnalysisSeparator := "\n\n---\n\n"
  const ImageAnalysisHeader := "\n\n[Image Analysis]:\n"
  const AudioHeader := "\n\n[Audio transcription]: "
  const AudioFailureNote := "\n\n[Note: Audio transcription failed. Please describe your symptoms in text.]"
  const AudioFailureMessage := "I sent an audio message, but it could not be transcribed. Please describe your symptoms in text."
  const Apology := "I apologize, but I could not generate a response."

  datatype ChatRole = FromUser | FromAssistant | FromSystem

  datatype Message = Message(role: ChatRole, content: string)

  datatype AttachmentKind = ImageFile | AudioFile

  datatype Attachment = Attachment(kind: AttachmentKind, url: string)

  /** What the image pipeline (download, then vision analysis) returns for each absolute URL; an
      absent URL is a pipeline that threw. */
  type VisionAnswers = map<string, string>

  /** What the transcription pipeline (download, then speech-to-text) returns for each absolute
      URL; an absent URL is a pipeline that threw, and an empty text counts as a failure. */
  type TranscriptionAnswers = map<string, string>

  /** What the completion endpoint answered. */
  datatype Completion =
    | CompletionOk(content: Option<string>)
    | CompletionHttpError(body: string)
    | CompletionThrew(message: string)

  datatype Request = Request(model: string, messages: seq<Message>)

  // ---------------------------------------------------------------------------
  // URLs
  // ---------------------------------------------------------------------------

  function BaseUrl(env: Env): string {
    OrElse(EnvGet(env, "NEXTAUTH_URL"), DefaultBaseUrl)
  }

  /** A URL starting with `http` is used as it is; anything else is put after the base URL. */
  function FullUrl(env: Env, url: string): string {
    if StartsWith(url, "http") then url else BaseUrl(env) + url
  }

  /** When the base URL itself starts with `http` (as the default does), completing a URL twice
      changes nothing, and the result always starts with `http`. */
  lemma FullUrlIdempotent(env: Env, url: string)
    requires StartsWith(BaseUrl(env), "http")
    ensures StartsWith(FullUrl(env, url), "http")
    ensures FullUrl(env, FullUrl(env, url)) == FullUrl(env, url)
  {
    if !StartsWith(url, "http") {
      assert (BaseUrl(env) + url)[..4] == BaseUrl(env)[..4];
    }
  }

  /** The default base URL starts with `http`. */
  lemma DefaultBaseIsHttp(env: Env)
    requires !Truthy(EnvGet(env, "NEXTAUTH_URL"))
    ensures StartsWith(BaseUrl(env), "http")
  {
    assert DefaultBaseUrl[..4] == "http";
  }

  /** Without `NEXTAUTH_URL`, a relative URL is put after `http://localhost:3000`, every completed
      URL starts with `http`, and completing it again changes nothing. */
  lemma UnsetBaseUrlCompletesToHttp(env: Env, url: string)
    requires !Truthy(EnvGet(env, "NEXTAUTH_URL"))
    ensures !StartsWith(url, "http") ==> FullUrl(env, url) == DefaultBaseUrl + url
    ensures StartsWith(FullUrl(env, url), "http")
    ensures FullUrl(env, FullUrl(env, url)) == FullUrl(env, url)
  {
    DefaultBaseIsHttp(env);
    FullUrlIdempotent(env, url);
  }

  // ---------------------------------------------------------------------------
  // Attachments
  // ---------------------------------------------------------------------------

  /** `attachments.filter(a => a.type === kind)`, as URLs. */
  function UrlsOf(attachments: seq<Attachment>, kind: AttachmentKind): (urls: seq<string>)
    ensures |urls| <= |attachments|
  {
    if |attachments| == 0 then []
    else
      var last := attachments[|attachments| - 1];
      UrlsOf(attachments[..|attachments| - 1], kind) + (if last.kind == kind then [last.url] else [])
  }

  /** `parts.join(sep)` */
  function JoinWith(parts: seq<string>, sep: string): string {
    if |parts| == 0 then ""
    else if |parts| == 1 then parts[0]
    else parts[0] + sep + JoinWith(parts[1..], sep)
  }

  /** The analysis of one image, or the failure note when the vision key is missing or the
      pipeline threw. */
  function AnalyseImage(env: Env, vision: VisionAnswers, url: string): string {
    var full := FullUrl(env, url);
    if Truthy(EnvGet(env, "GOOGLE_CLOUD_API_KEY")) && full in vision then vision[full] else ImageFailureNote
  }

  /** The transcription of one recording; `None` when the transcription key is missing, the
      pipeline threw, or the text came back empty. */
  function Transcribe(env: Env, transcriptions: TranscriptionAnswers, url: string): Option<string> {
    var full := FullUrl(env, url);
    if Truthy(EnvGet(env, "OPENAI_API_KEY")) && full in transcriptions && transcriptions[full] != ""
    then Some(transcriptions[full]) else None
  }

  predicate LastIsUser(msgs: seq<Message>) {
    |msgs| > 0 && msgs[|msgs| - 1].role == FromUser
  }

  /** The last user message with the image analyses added: after its text under a header, or,
      when it has no text, after a line saying how many images were attached. */
  function WithImages(content: string, analyses: seq<string>, count: nat): string {
    var text := JoinWith(analyses, AnalysisSeparator);
    if content != "" then content + ImageAnalysisHeader + text
    else "[User has attached " + NatToString(count) + " image(s) for analysis]\n\n" + text
  }

  /** The image step: only when there are images and the last message is the user's. */
  function ImageStep(msgs: seq<Message>, env: Env, vision: VisionAnswers, images: seq<string>): seq<Message> {
    if |images| > 0 && LastIsUser(msgs) then
      var analyses := seq(|images|, i requires 0 <= i < |images| => AnalyseImage(env, vision, images[i]));
      var last := msgs[|msgs| - 1];
      msgs[|msgs| - 1 := last.(content := WithImages(last.content, analyses, |images|))]
    else msgs
  }

  /** One recording: merged into the last user message, or a new user message when the last
      message is not the user's. A failed transcription leaves a note instead. */
  function AudioStep(msgs: seq<Message>, outcome: Option<string>): (r: seq<Message>)
    ensures LastIsUser(r)
    ensures |r| == if LastIsUser(msgs) then |msgs| else |msgs| + 1
    ensures forall i :: 0 <= i < |msgs| - 1 ==> r[i] == msgs[i]
    ensures !LastIsUser(msgs) ==> r[..|msgs|] == msgs
  {
    if LastIsUser(msgs) then
      var last := msgs[|msgs| - 1];
      var content :=
        match outcome
        case Some(t) => if last.content != "" then last.content + AudioHeader + t else t
        case None => if last.content != "" then last.content + AudioFailureNote else AudioFailureMessage;
      msgs[|msgs| - 1 := last.(content := content)]
    else msgs + [Message(FromUser, match outcome case Some(t) => t case None => AudioFailureMessage)]
  }

  function AudioSteps(msgs: seq<Message>, env: Env, transcriptions: TranscriptionAnswers, audios: seq<string>): seq<Message> {
    if |audios| == 0 then msgs
    else AudioStep(AudioSteps(msgs, env, transcriptions, audios[..|audios| - 1]),
                   Transcribe(env, transcriptions, audios[|audios| - 1]))
  }

  /** The conversation sent to the model, before the system prompt. */
  function Formatted(msgs: seq<Message>, attachments: seq<Attachment>, env: Env,
                     vision: VisionAnswers, transcriptions: TranscriptionAnswers): seq<Message> {
    AudioSteps(ImageStep(msgs, env, vision, UrlsOf(attachments, ImageFile)), env, transcriptions, UrlsOf(attachments, AudioFile))
  }

  function BuildRequest(msgs: seq<Message>, attachments: seq<Attachment>, env: Env,
                        vision: VisionAnswers, transcriptions: TranscriptionAnswers): (req: Request)
    ensures req.model == OrElse(EnvGet(env, "OPENROUTER_MODEL"), DefaultModel)
    ensures |req.messages| >= 1 && req.messages[0] == Message(FromSystem, SystemPrompt)
    ensures req.messages[1..] == Formatted(msgs, attachments, env, vision, transcriptions)
  {
    Request(OrElse(EnvGet(env, "OPENROUTER_MODEL"), DefaultModel),
            [Message(FromSystem, SystemPrompt)] + Formatted(msgs, attachments, env, vision, transcriptions))
  }

  // ---------------------------------------------------------------------------
  // Properties
  // ---------------------------------------------------------------------------

  /** Every message but the last is sent as it was, and no message is dropped. */
  lemma {:induction false} EarlierMessagesUnchanged(msgs: seq<Message>, env: Env, transcriptions: TranscriptionAnswers, audios: seq<string>)
    ensures var r := AudioSteps(msgs, env, transcriptions, audios);
            |msgs| <= |r| <= |msgs| + |audios|
            && (forall i :: 0 <= i < |msgs| - 1 ==> r[i] == msgs[i])
            && (forall i :: 0 <= i < |msgs| ==> r[i].role == msgs[i].role)
  {
    if |audios| > 0 {
      EarlierMessagesUnchanged(msgs, env, transcriptions, audios[..|audios| - 1]);
    }
  }

  /** Audio adds at most one message, however many recordings there are: once a user message is
      last, every further recording is merged into it. */
  lemma {:induction false} AudioAddsAtMostOneMessage(msgs: seq<Message>, env: Env, transcriptions: TranscriptionAnswers, audios: seq<string>)
    ensures var r := AudioSteps(msgs, env, transcriptions, audios);
            |r| <= |msgs| + 1
            && (LastIsUser(msgs) ==> |r| == |msgs|)
            && (|audios| > 0 ==> LastIsUser(r))
  {
    if |audios| > 0 {
      var init := audios[..|audios| - 1];
      AudioAddsAtMostOneMessage(msgs, env, transcriptions, init);
      if |init| > 0 {
        assert LastIsUser(AudioSteps(msgs, env, transcriptions, init));
      }
    }
  }

  /** A transcription that succeeds ends the last user message, and the text already there is
      kept in front of it. */
  lemma TranscriptEndsLastMessage(msgs: seq<Message>, t: string)
    ensures var r := AudioStep(msgs, Some(t));
            EndsWith(r[|r| - 1].content, t)
            && (LastIsUser(msgs) ==> StartsWith(r[|r| - 1].content, msgs[|msgs| - 1].content))
  {
    var r := AudioStep(msgs, Some(t));
    if LastIsUser(msgs) && msgs[|msgs| - 1].content != "" {
      var c := msgs[|msgs| - 1].content;
      EndsWithAppend(c + AudioHeader, t);
      assert c + AudioHeader + t == c + (AudioHeader + t);
      StartsWithExtension(c, AudioHeader + t);
    } else {
      assert EndsWith(t, t) by { assert t[|t| - |t|..] == t; }
      if LastIsUser(msgs) {
        assert StartsWith(r[|r| - 1].content, "");
      }
    }
  }

  /** A transcription that fails leaves a note: after the text of the last user message, in place
      of its empty text, or as a new user message. */
  lemma FailedTranscriptLeavesNote(msgs: seq<Message>)
    ensures var r := AudioStep(msgs, None);
            && (LastIsUser(msgs) && msgs[|msgs| - 1].content != "" ==>
                  StartsWith(r[|r| - 1].content, msgs[|msgs| - 1].content)
                  && EndsWith(r[|r| - 1].content, AudioFailureNote))
            && (LastIsUser(msgs) && msgs[|msgs| - 1].content == "" ==> r[|r| - 1].content == AudioFailureMessage)
            && (!LastIsUser(msgs) ==> r == msgs + [Message(FromUser, AudioFailureMessage)])
  {
    if LastIsUser(msgs) && msgs[|msgs| - 1].content != "" {
      var c := msgs[|msgs| - 1].content;
      EndsWithAppend(c, AudioFailureNote);
      StartsWithExtension(c, AudioFailureNote);
    }
  }

  /** The request carries the conversation after the system prompt: every message but the last
      unchanged and one place later, every role kept, and at most two messages more in all. */
  lemma RequestKeepsTheConversation(msgs: seq<Message>, attachments: seq<Attachment>, env: Env,
                                    vision: VisionAnswers, transcriptions: TranscriptionAnswers)
    ensures var req := BuildRequest(msgs, attachments, env, vision, transcriptions);
            && |msgs| + 1 <= |req.messages| <= |msgs| + 2
            && (forall i :: 0 <= i < |msgs| - 1 ==> req.messages[i + 1] == msgs[i])
            && (forall i :: 0 <= i < |msgs| ==> req.messages[i + 1].role == msgs[i].role)
  {
    var imaged := ImageStep(msgs, env, vision, UrlsOf(attachments, ImageFile));
    ImageStepKeepsEarlier(msgs, env, vision, UrlsOf(attachments, ImageFile));
    var audios := UrlsOf(attachments, AudioFile);
    EarlierMessagesUnchanged(imaged, env, transcriptions, audios);
    AudioAddsAtMostOneMessage(imaged, env, transcriptions, audios);
    var req := BuildRequest(msgs, attachments, env, vision, transcriptions);
    assert forall i :: 0 <= i < |req.messages| - 1 ==> req.messages[i + 1] == req.messages[1..][i];
  }

  lemma ImageStepKeepsEarlier(msgs: seq<Message>, env: Env, vision: VisionAnswers, images: seq<string>)
    ensures var r := ImageStep(msgs, env, vision, images);
            |r| == |msgs| && (forall i :: 0 <= i < |msgs| - 1 ==> r[i] == msgs[i])
            && (forall i :: 0 <= i < |msgs| ==> r[i].role == msgs[i].role)
  {
  }

  /** The image analyses, joined, end the last user message, which keeps its earlier text. */
  lemma ImageAnalysesEndLastMessage(msgs: seq<Message>, env: Env, vision: VisionAnswers, images: seq<string>)
    requires |images| > 0 && LastIsUser(msgs)
    ensures var r := ImageStep(msgs, env, vision, images);
            var analyses := seq(|images|, i requires 0 <= i < |images| => AnalyseImage(env, vision, images[i]));
            |r| == |msgs| && r[..|msgs| - 1] == msgs[..|msgs| - 1]
            && EndsWith(r[|r| - 1].content, JoinWith(analyses, AnalysisSeparator))
            && StartsWith(r[|r| - 1].content, msgs[|msgs| - 1].content)
  {
    var analyses := seq(|images|, i requires 0 <= i < |images| => AnalyseImage(env, vision, images[i]));
    var text := JoinWith(analyses, AnalysisSeparator);
    var c := msgs[|msgs| - 1].content;
    if c != "" {
      assert c + ImageAnalysisHeader + text == c + (ImageAnalysisHeader + text);
      EndsWithAppend(c + ImageAnalysisHeader, text);
      StartsWithExtension(c, ImageAnalysisHeader + text);
    } else {
      var head := "[User has attached " + NatToString(|images|) + " image(s) for analysis]\n\n";
      EndsWithAppend(head, text);
      assert StartsWith(head + text, "");
    }
  }

  /** Without a user message at the end, images are not analysed and nothing changes. */
  lemma ImagesNeedAUserMessage(msgs: seq<Message>, env: Env, vision: VisionAnswers, images: seq<string>)
    requires !LastIsUser(msgs)
    ensures ImageStep(msgs, env, vision, images) == msgs
  {
  }

  // ---------------------------------------------------------------------------
  // The call
  // ---------------------------------------------------------------------------

  /** Every image analysed in turn; a failure becomes the failure note and does not stop the rest. */
  method AnalyseImages(env: Env, vision: VisionAnswers, images: seq<string>) returns (analyses: seq<string>)
    ensures analyses == seq(|images|, i requires 0 <= i < |images| => AnalyseImage(env, vision, images[i]))
  {
    analyses := [];
    for i := 0 to |images|
      invariant |analyses| == i
      invariant forall j :: 0 <= j < i ==> analyses[j] == AnalyseImage(env, vision, images[j])
    {
      analyses := analyses + [AnalyseImage(env, vision, images[i])];
    }
  }

  /** The recordings transcribed one after the other, each merged into the conversation as it
      comes back. */
  method MergeAudios(msgs: seq<Message>, env: Env, transcriptions: TranscriptionAnswers, audios: seq<string>)
    returns (formatted: seq<Message>)
    ensures formatted == AudioSteps(msgs, env, transcriptions, audios)
  {
    formatted := msgs;
    for k := 0 to |audios|
      invariant formatted == AudioSteps(msgs, env, transcriptions, audios[..k])
    {
      assert audios[..k + 1][..k] == audios[..k];
      var transcript := Transcribe(env, transcriptions, audios[k]);
      if |formatted| > 0 && formatted[|formatted| - 1].role == FromUser {
        var last := formatted[|formatted| - 1];
        var content: string;
        if transcript.Some? {
          content := if last.content != "" then last.content + AudioHeader + transcript.value else transcript.value;
        } else {
          content := if last.content != "" then last.content + AudioFailureNote else AudioFailureMessage;
        }
        formatted := formatted[|formatted| - 1 := last.(content := content)];
      } else {
        formatted := formatted + [Message(FromUser, if transcript.Some? then transcript.value else AudioFailureMessage)];
      }
    }
    assert audios[..|audios|] == audios;
  }

  /** `getDiagnosisFromAI`. `sent` is the request the completion endpoint received, if any. */
  method GetDiagnosisFromAI(env: Env, messages: seq<Message>, attachments: seq<Attachment>,
                            vision: VisionAnswers, transcriptions: TranscriptionAnswers, completion: Completion)
    returns (r: Result<string, string>, sent: Option<Request>)
    ensures !Truthy(EnvGet(env, "OPENROUTER_API_KEY")) ==> r == Err(NoApiKey) && sent.None?
    ensures Truthy(EnvGet(env, "OPENROUTER_API_KEY")) ==>
      sent == Some(BuildRequest(messages, attachments, env, vision, transcriptions))
    ensures sent.Some? ==> match completion
      case CompletionOk(content) => r == Ok(OrElse(content, Apology)) && r.value != ""
      case CompletionHttpError(body) => r == Err("OpenRouter API error: " + body)
      case CompletionThrew(message) => r == Err(message)
  {
    if !Truthy(EnvGet(env, "OPENROUTER_API_KEY")) {
      return Err(NoApiKey), None;
    }
    var model := OrElse(EnvGet(env, "OPENROUTER_MODEL"), DefaultModel);
    var formatted := messages;

    var images := UrlsOf(attachments, ImageFile);
    if |images| > 0 && |formatted| > 0 && formatted[|formatted| - 1].role == FromUser {
      var last := formatted[|formatted| - 1];
      var analyses := AnalyseImages(env, vision, images);
      formatted := formatted[|formatted| - 1 := last.(content := WithImages(last.content, analyses, |images|))];
    }
    ghost var afterImages := formatted;
    assert afterImages == ImageStep(messages, env, vision, images);

    formatted := MergeAudios(formatted, env, transcriptions, UrlsOf(attachments, AudioFile));

    sent := Some(Request(model, [Message(FromSystem, SystemPrompt)] + formatted));
    match completion {
      case CompletionOk(content) =>
        r := Ok(OrElse(content, Apology));
      case CompletionHttpError(body) =>
        r := Err("OpenRouter API error: " + body);
      case CompletionThrew(message) =>
        r := Err(message);
    }
  }
}
