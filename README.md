# Video relay bot: verified model of the message pipeline

The bot watches a chat. When a message's text is a YouTube link, it does five things in order:

1. It fetches the video's metadata.
2. It picks the best stream that carries both video and audio.
3. It downloads that stream.
4. It uploads the file back to the chat.
5. It replies "this is a youtube url".

This project models the three pieces of decision logic in `src/main.rs` and proves properties about them:

- the link recogniser `get_youtube_url` (module `Recognizer`, `recognizer.dfy`);
- the stream selector `get_best_quality_stream` (module `Streams`, `streams.dfy`);
- the decision tree of `message_handler` (module `Handler`, `handler.dfy`).

`wrappers.dfy` holds Rust's `Option` and `Result` and an opaque collaborator error.

The library calls are abstracted:

- URL parsing (`Url::from_str`), metadata fetching (`Video::from_url`), the download (`Stream::download_to_dir`) and the two chat calls (`send_video`, `send_message`) are function-typed fields of the datatype `Handler.Env`.
- Each is an arbitrary total function returning a `Result`, so every lemma holds for every behaviour of the collaborators.
- The handler is a pure function. It returns the list of collaborator calls it made, with their arguments, and the handler's own result.

Design choices:

- `get_best_quality_stream` returns a reference into the video's stream list. It is modelled as returning the index of the chosen stream.
- A quality label is modelled as an `int`, its rank in the label's total order.
- The selector is modelled as Rust evaluates it: `filter` gives the qualifying indices in list order (`FilterQualifying`). `max_by_key` is a left-to-right reduction that keeps the element held so far only when its label is strictly greater (`MaxByQuality`). So on a tie the LAST maximal stream wins.
- The download is given the exact stream the selector returned. It is modelled as a `StreamRef`: the stream together with its position in the list. So two streams with equal fields are still told apart, in the call trace and by the download collaborator.
- On a tie, `max_by_key` returns the last maximal stream, and the model does the same (`TieGoesToLater`, `TiedStreamsDownloadTheLater`).
- The code acknowledges unconditionally. It never deletes the downloaded file, sets no timeout, and checks the host only by substring search. The model does the same (`ForeignHostAccepted`).
- `str::starts_with` and `str::contains` are modelled on `seq<char>`. Both patterns are ASCII, so comparing by characters gives the same answers as Rust's comparison of UTF-8 bytes.

## Model

| member | source | states |
|---|---|---|
| `Recognizer.YoutubeUrl` | src/main.rs:96-110 | No text gives no URL. A URL is returned exactly when the text starts with `https://`, `youtube.com/` occurs somewhere in it, and the whole text parses. The URL is then the parse of the whole text, with nothing trimmed or extracted. |
| `Recognizer.ContainsIffOccurs` | src/main.rs:99 | The left-to-right substring search used for `contains` succeeds exactly when the pattern occurs at some position. |
| `Recognizer.ParseFailureIsNoMatch` | src/main.rs:100-104 | A text that passes both text checks but fails to parse gives no URL, not an error. |
| `Recognizer.PlainHttpIsNoMatch` | src/main.rs:99 | `check this out http://youtube.com/x` is never recognised, whatever the parser does. |
| `Recognizer.ForeignHostAccepted` | src/main.rs:99 | One example that the host is not validated: `https://evil.com/?x=youtube.com/`, which points at another host, is recognised whenever it parses. |
| `Streams.FilterQualifying` | src/main.rs:34 | The filter keeps exactly the indices of streams with both a video and an audio track, in strictly increasing list order. |
| `Streams.MaxByQuality` | src/main.rs:35 | `max_by_key` returns nothing only for an empty input. Otherwise it returns one of its inputs whose label is at least every input's label, and every input after it has a strictly smaller label (last maximum wins). |
| `Streams.BestQualityStream` | src/main.rs:30-36 | No stream is selected exactly when no stream has both tracks. A selected index lies in the list and its stream has both tracks. |
| `Streams.BestQualityStreamIsBest` | src/main.rs:31-35 | The selected stream has both tracks. Its label is at least that of every qualifying stream. Every later qualifying stream has a strictly smaller label. |
| `Streams.BestQualityStreamCharacterised` | src/main.rs:30-36 | For every index `i`: the selector returns `i` exactly when `i` is the last qualifying stream of maximal label. |
| `Streams.TieGoesToLater` | src/main.rs:35 | Of two qualifying streams with equal labels, the second is chosen. |
| `Handler.Relay` | src/main.rs:49-87 | Between recognition and the acknowledgment there are one to three calls. The first is the metadata fetch for the recognised URL. Call number k belongs to pipeline stage k: fetch, then download, then upload. |
| `Handler.RelayStages` | src/main.rs:49-87 | A download happens exactly when metadata is fetched and a stream is selected. It is of the selected stream, identified by its position in the list. An upload happens exactly when that download also succeeds. It sends the file the download returned to the message's chat. |
| `Handler.MessageHandler` | src/main.rs:38-94 | A non-link causes no call and the handler returns `Ok(())`. A link causes a fetch of the recognised URL first, and exactly one acknowledgment to the same chat, made last, whatever the earlier stages did. The calls before the acknowledgment are those of the relay stages. The handler returns `Err` exactly when the acknowledgment fails, and then with that error. |
| `Handler.CallsInPipelineOrder` | src/main.rs:45-89 | Calls happen in pipeline order (fetch, download, upload, acknowledgment), each kind at most once. So `send_video` is called at most once and never after the acknowledgment. |
| `Handler.RepliesGoToOriginChat` | src/main.rs:40-89 | Every upload and every acknowledgment is addressed to the chat the message came from. |
| `Handler.UploadOnlyAfterDownload` | src/main.rs:49-63 | `send_video` is called exactly when metadata fetch, stream selection and download all succeed. It is called right after the download, with the downloaded file. |
| `Handler.DownloadsSelectedStream` | src/main.rs:49-56 | A download happens only for a link. What is downloaded is the stream at the position the selector picked from the metadata fetched for the recognised URL. That stream has both tracks and a maximal label, and every later qualifying stream has a strictly smaller label, so on a tie the last one is downloaded. |
| `Handler.TiedStreamsDownloadTheLater` | src/main.rs:52-56 | When the metadata lists the same qualifying stream twice, the download is of the second entry (position 1). |
| `Handler.UploadOutcomeIgnored` | src/main.rs:63-72 | Whether the upload succeeds or fails changes neither the calls nor the handler's result. |
| `Handler.PlainHttpMakesNoCall` | src/main.rs:45-93 | A plain `http://` link causes no collaborator call at all, and the handler returns `Ok(())`. |
| `Handler.NoStreamStillAcknowledged` | src/main.rs:79-89 | When the metadata lists no stream, nothing is downloaded or uploaded, and the link is still acknowledged. |

## Left out

- Process start-up in `main` (src/main.rs:13-28) is left out: environment loading, logger set-up, building and running the dispatcher. This is framework wiring with no decisions in it.
- The internals of URL parsing, metadata fetching, downloading and the chat API are left out. They are library and network code, and each is an arbitrary function in `Env`.
- The `/tmp` target directory is left out. The file name and path are whatever the download collaborator returns.
- `async`/`await` and the concurrent handling of different messages are left out. Each message is handled sequentially and independently.
- Every run downloads into the same `/tmp` directory. Interference between runs there, such as name clashes or overwritten files, is not modelled, except as whatever result the download collaborator returns.
- Log messages are left out. They carry no behaviour. This includes the video id and the stream URL, which are read only for logging.
- The quality label's own type is left out. It is represented by its rank in its total order.
- Being a pure function, `YoutubeUrl` always gives the same answer for the same text and parser. No separate statement about this is made.
