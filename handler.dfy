/**
 * The per-message pipeline `message_handler`: recognise a link, fetch the
 * video metadata, select a stream, download it, upload it to the chat, and
 * then acknowledge the link in the chat whatever happened on the way. Every
 * collaborator is a function-typed field of `Env`, so that its outcome is an
 * arbitrary input; the handler's effect is the list of calls it makes.
 */
module Handler {
  import opened Wrappers
  import opened Recognizer
  import opened Streams

  type ChatId = int

  /** Where a download landed. */
  datatype Path = Path(name: string)

  /**
   * The `&Stream` that selection hands to the download: the stream together
   * with its position in the video's stream list, so that two streams with
   * equal fields are still told apart.
   */
  datatype StreamRef = StreamRef(position: nat, stream: Stream)

  /** The collaborators the handler calls, each at most once per message. */
  datatype Env = Env(
    parseUrl: UrlParser,                                // `Url::from_str`
    fetchVideo: Url -> Result<Video, Failure>,          // `rustube::Video::from_url`
    downloadToDir: StreamRef -> Result<Path, Failure>,  // `Stream::download_to_dir`
    sendVideo: (ChatId, Path) -> Result<(), Failure>,   // `Bot::send_video`
    sendMessage: (ChatId, string) -> Result<(), Failure> // `Bot::send_message`
  )

  /** An outbound collaborator call, with its arguments. */
  datatype Call =
    | FetchVideo(url: Url)
    | DownloadToDir(target: StreamRef)
    | SendVideo(chat: ChatId, file: Path)
    | SendMessage(chat: ChatId, text: string)

  /** The calls one message caused, in order, and what the handler returned. */
  datatype Run = Run(calls: seq<Call>, result: Result<(), Failure>)

  const Acknowledgment: string := "this is a youtube url"

  /** The position of each kind of call in the pipeline. */
  function Stage(c: Call): nat {
    match c
    case FetchVideo(_) => 0
    case DownloadToDir(_) => 1
    case SendVideo(_, _) => 2
    case SendMessage(_, _) => 3
  }

  predicate IsChatCall(c: Call) {
    c.SendVideo? || c.SendMessage?
  }

  /** The message text is a recognised link. */
  predicate Matched(text: Option<string>, env: Env) {
    YoutubeUrl(text, env.parseUrl).Some?
  }

  /** For the link `url`, the metadata is fetched and a stream is selected from it. */
  ghost predicate StreamSelected(url: Url, env: Env) {
    env.fetchVideo(url).Ok? && BestQualityStream(env.fetchVideo(url).value.streams).Some?
  }

  /** For the link `url`, the three stages before the upload all succeed: metadata, a stream, the download. */
  ghost predicate UploadFollows(url: Url, env: Env) {
    && StreamSelected(url, env)
    && var streams := env.fetchVideo(url).value.streams;
    && var best := BestQualityStream(streams).value;
    && env.downloadToDir(StreamRef(best, streams[best])).Ok?
  }

  /** `target` is the stream, at its position, selected from the metadata fetched for `url`. */
  ghost predicate DownloadsBest(url: Url, env: Env, target: StreamRef) {
    && var meta := env.fetchVideo(url);
    && meta.Ok?
    && var best := BestQualityStream(meta.value.streams);
    && best.Some?
    && target == StreamRef(best.value, meta.value.streams[best.value])
  }

  /** The message is a link and the upload stage is reached. */
  ghost predicate UploadStagesSucceed(text: Option<string>, env: Env) {
    Matched(text, env) && UploadFollows(YoutubeUrl(text, env.parseUrl).value, env)
  }

  /**
   * The stages between recognising `url` and the acknowledgment. A failure
   * at any of them is logged and ends this part; so is the upload's result,
   * which is logged and otherwise ignored.
   */
  function Relay(chatId: ChatId, url: Url, env: Env): (calls: seq<Call>)
    ensures 1 <= |calls| <= 3 && calls[0] == FetchVideo(url)
    ensures forall i :: 0 <= i < |calls| ==> Stage(calls[i]) == i
  {
    match env.fetchVideo(url)
    case Err(_) => [FetchVideo(url)]
    case Ok(video) =>
      match BestQualityStream(video.streams)
      case None => [FetchVideo(url)]
      case Some(i) =>
        var target := StreamRef(i, video.streams[i]);
        match env.downloadToDir(target)
        case Err(_) => [FetchVideo(url), DownloadToDir(target)]
        case Ok(path) => [FetchVideo(url), DownloadToDir(target), SendVideo(chatId, path)]
  }

  /**
   * How far the relay stages get: a download exactly when a stream is
   * selected, and of that stream; an upload exactly when the download also
   * succeeds, of the downloaded file, to the message's chat.
   */
  lemma RelayStages(chatId: ChatId, url: Url, env: Env)
    ensures var calls := Relay(chatId, url, env);
      && (|calls| >= 2 <==> StreamSelected(url, env))
      && (|calls| >= 2 ==> calls[1].DownloadToDir? && DownloadsBest(url, env, calls[1].target))
      && (|calls| == 3 <==> UploadFollows(url, env))
      && (|calls| == 3 ==> calls[2] == SendVideo(chatId, env.downloadToDir(calls[1].target).value))
  {
  }

  /** Appending the acknowledgment to the relay stages' calls keeps the calls in pipeline order. */
  lemma {:induction false} AcknowledgmentAppended(relayed: seq<Call>, ack: Call)
    requires |relayed| <= 3 && forall i :: 0 <= i < |relayed| ==> Stage(relayed[i]) == i
    requires ack.SendMessage?
    ensures var calls := relayed + [ack];
      && calls[..|relayed|] == relayed
      && (forall i :: 0 <= i < |calls| ==> Stage(calls[i]) == if i < |relayed| then i else 3)
      && (forall i, j :: 0 <= i < j < |calls| ==> Stage(calls[i]) < Stage(calls[j]))
      && multiset(calls)[ack] == 1
  {
    var calls := relayed + [ack];
    assert forall i :: 0 <= i < |relayed| ==> calls[i] == relayed[i];
    assert ack !in relayed;
    assert multiset(calls) == multiset(relayed) + multiset{ack};
  }

  /**
   * `message_handler` for a message with chat `chatId` and optional text.
   * A text that is not a link causes no call at all and the handler
   * succeeds. A link is fetched as recognised and acknowledged exactly once,
   * in the same chat, as the last call, whatever the earlier stages did;
   * the calls before it are those of the relay stages. The handler fails
   * exactly when the acknowledgment fails, and then with that error.
   */
  function MessageHandler(chatId: ChatId, text: Option<string>, env: Env): (run: Run)
    ensures !Matched(text, env) ==> run.calls == [] && run.result == Ok(())
    ensures Matched(text, env) ==>
      && |run.calls| >= 2
      && run.calls[0] == FetchVideo(YoutubeUrl(text, env.parseUrl).value)
      && run.calls[|run.calls| - 1] == SendMessage(chatId, Acknowledgment)
      && multiset(run.calls)[SendMessage(chatId, Acknowledgment)] == 1
    ensures Matched(text, env) ==>
      run.calls[..|run.calls| - 1] == Relay(chatId, YoutubeUrl(text, env.parseUrl).value, env)
    ensures run.result.Err? <==> Matched(text, env) && env.sendMessage(chatId, Acknowledgment).Err?
    ensures run.result.Err? ==> run.result == env.sendMessage(chatId, Acknowledgment)
  {
    match YoutubeUrl(text, env.parseUrl)
    case None => Run([], Ok(()))
    case Some(url) =>
      var relayed := Relay(chatId, url, env);
      var calls := relayed + [SendMessage(chatId, Acknowledgment)];
      AcknowledgmentAppended(relayed, SendMessage(chatId, Acknowledgment));
      match env.sendMessage(chatId, Acknowledgment)
      case Err(e) => Run(calls, Err(e))
      case Ok(_) => Run(calls, Ok(()))
  }

  /**
   * Calls happen in pipeline order, each kind at most once: in particular
   * the video is uploaded at most once and never after the acknowledgment.
   */
  lemma {:induction false} CallsInPipelineOrder(chatId: ChatId, text: Option<string>, env: Env)
    ensures var calls := MessageHandler(chatId, text, env).calls;
      forall i, j :: 0 <= i < j < |calls| ==> Stage(calls[i]) < Stage(calls[j])
  {
    if Matched(text, env) {
      var relayed := Relay(chatId, YoutubeUrl(text, env.parseUrl).value, env);
      AcknowledgmentAppended(relayed, SendMessage(chatId, Acknowledgment));
      assert MessageHandler(chatId, text, env).calls == relayed + [SendMessage(chatId, Acknowledgment)];
    }
  }

  /** Both chat calls, the upload and the acknowledgment, go to the chat the message came from. */
  lemma {:induction false} RepliesGoToOriginChat(chatId: ChatId, text: Option<string>, env: Env)
    ensures var calls := MessageHandler(chatId, text, env).calls;
      forall i :: 0 <= i < |calls| && IsChatCall(calls[i]) ==> calls[i].chat == chatId
  {
    if Matched(text, env) {
      var url := YoutubeUrl(text, env.parseUrl).value;
      var relayed := Relay(chatId, url, env);
      var calls := MessageHandler(chatId, text, env).calls;
      RelayStages(chatId, url, env);
      assert calls == relayed + [SendMessage(chatId, Acknowledgment)];
      assert forall i :: 0 <= i < |relayed| ==> calls[i] == relayed[i];
    }
  }

  /**
   * The video is uploaded exactly when metadata, stream selection and the
   * download all succeed, and what is uploaded is the file just downloaded.
   */
  lemma {:induction false} UploadOnlyAfterDownload(chatId: ChatId, text: Option<string>, env: Env)
    ensures var calls := MessageHandler(chatId, text, env).calls;
      && ((exists i :: 0 <= i < |calls| && calls[i].SendVideo?) <==> UploadStagesSucceed(text, env))
      && forall i :: 0 <= i < |calls| && calls[i].SendVideo? ==>
           && 0 < i
           && calls[i - 1].DownloadToDir?
           && env.downloadToDir(calls[i - 1].target) == Ok(calls[i].file)
  {
    if Matched(text, env) {
      var url := YoutubeUrl(text, env.parseUrl).value;
      var relayed := Relay(chatId, url, env);
      var calls := MessageHandler(chatId, text, env).calls;
      RelayStages(chatId, url, env);
      assert calls == relayed + [SendMessage(chatId, Acknowledgment)];
      forall i | 0 <= i < |calls| && calls[i].SendVideo? ensures i == 2 && |relayed| == 3 {
        if i < |relayed| {
          assert Stage(relayed[i]) == i;
        }
      }
      if |relayed| == 3 {
        assert calls[2].SendVideo?;
      }
    }
  }

  /**
   * What is downloaded is the stream the selector picked from the video
   * fetched for the recognised link, at the position it picked: a qualifying
   * stream of maximal label, and the last one of them on a tie.
   */
  lemma {:induction false} DownloadsSelectedStream(chatId: ChatId, text: Option<string>, env: Env)
    ensures var calls := MessageHandler(chatId, text, env).calls;
      forall i :: 0 <= i < |calls| && calls[i].DownloadToDir? ==>
        && Matched(text, env)
        && var url := YoutubeUrl(text, env.parseUrl).value;
        && DownloadsBest(url, env, calls[i].target)
        && IsBestQuality(env.fetchVideo(url).value.streams, calls[i].target.position)
  {
    if Matched(text, env) {
      var url := YoutubeUrl(text, env.parseUrl).value;
      var relayed := Relay(chatId, url, env);
      var calls := MessageHandler(chatId, text, env).calls;
      RelayStages(chatId, url, env);
      assert calls == relayed + [SendMessage(chatId, Acknowledgment)];
      assert forall i :: 0 <= i < |relayed| ==> calls[i] == relayed[i];
      if |relayed| >= 2 {
        BestQualityStreamIsBest(env.fetchVideo(url).value.streams);
      }
    }
  }

  /**
   * Two qualifying streams of equal label and equal fields: the download is
   * of the second one, by position.
   */
  lemma TiedStreamsDownloadTheLater(chatId: ChatId, url: Url, env: Env, s: Stream)
    requires Qualifies(s)
    requires env.fetchVideo(url) == Ok(Video([s, s]))
    ensures Relay(chatId, url, env)[1] == DownloadToDir(StreamRef(1, s))
  {
    TieGoesToLater(s, s);
  }

  /** Whether the upload succeeded or failed changes nothing the handler does. */
  lemma UploadOutcomeIgnored(chatId: ChatId, text: Option<string>, env: Env,
                             otherSendVideo: (ChatId, Path) -> Result<(), Failure>)
    ensures MessageHandler(chatId, text, env) ==
            MessageHandler(chatId, text, env.(sendVideo := otherSendVideo))
  {
  }

  /** A plain `http://` link makes no call at all, whatever the collaborators would do. */
  lemma PlainHttpMakesNoCall(chatId: ChatId, env: Env)
    ensures MessageHandler(chatId, Some("check this out http://youtube.com/x"), env) == Run([], Ok(()))
  {
    PlainHttpIsNoMatch(env.parseUrl);
  }

  /** Metadata with no stream: nothing is downloaded or uploaded, and the link is still acknowledged. */
  lemma NoStreamStillAcknowledged(chatId: ChatId, text: Option<string>, env: Env)
    requires Matched(text, env)
    requires env.fetchVideo(YoutubeUrl(text, env.parseUrl).value) == Ok(Video([]))
    ensures MessageHandler(chatId, text, env).calls ==
            [FetchVideo(YoutubeUrl(text, env.parseUrl).value), SendMessage(chatId, Acknowledgment)]
  {
  }
}
