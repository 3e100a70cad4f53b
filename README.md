# CatGPT core in Dafny

A model of the core of CatGPT. CatGPT is a Telegram bot that relays chats to large language model endpoints (OpenAI-compatible and Gemini). It keeps the conversations ("topics") of every user, chat and forum thread in a SQLite store.

The model covers these parts, each with its contracts and lemmas:

- the conversation store: message, topic, profile and user tables; the photo content codec; the `where` clauses as filters over rows kept in rowid order;
- the connection pool and the `transactional` wrapper, with its commit, rollback and close discipline;
- the topic service built on the store;
- the user profile service: the presets, the enrolment memo and the update checks;
- the endpoint configuration: lookups, the default endpoint, the sorted model list;
- the `/endpoint`, `/models` and `/revoke` commands, and the streaming reply of the chat command, including its pacing of Telegram edits and its 429 back-off;
- the request payloads for the OpenAI and Gemini providers, and the system prompts;
- the text utilities: the segmentation of a conversation into Telegram-sized pieces, and the compact message-id encoding carried in callback data;
- the conversion of a parsed document into Telegraph page nodes;
- the per-group reply setting and the photo-size choice.

Python's `None` becomes `Option`, and a raised exception becomes `Result.Err` carrying its message. The one exception is the `ValueError` of `int()`: `PyStr.ParseInt` gives None for it, and so does `Text.DecodeMessageIds` when a field is not an integer. Python's `str` operations used by the core are written out in `PyStr`: `strip`, `split`, `replace`, `join`, `int()`, `str()`, string `<` and `sorted` of a set.

Storage is modelled as classes whose `seq` fields are the tables. Rows are kept in insertion order, which is rowid order. Each statement is a method that states the whole new table as a function of the old one.

Telegram, the model endpoints and the clock are parameters:

- a bot call is a value the handlers return;
- the answer stream is a sequence of chunks, each stamped with its clock reading;
- Telegram's answer to each call is a function of the call's position and the call.

## Model

| member | source | states |
|---|---|---|
| Types.IsSupport | src/catgpt/types.py:47-49 | Unknown models support nothing; every known model supports text; only text and photo can be supported. |
| Types.PhotoSupport | src/catgpt/types.py:3-14 | gpt-4o and gpt-4-turbo accept photos; gpt-4 and gpt-3.5-turbo do not. |
| Types.ProviderNamed | src/catgpt/types.py:64-67 | Exactly "openai", "gemini" and "qwen" name a provider; "openai" maps to the provider whose value is "oai". |
| Types.NewEndpoint | src/catgpt/types.py:19-45 | Construction succeeds exactly when name, url, key and models are non-empty and the provider is known; each failing check, taken in order, gives its own message; the name, url, key, models and both flags are kept as given; a missing default model becomes the first listed one. |
| Types.ChatTypeGet | src/catgpt/types.py:81-89 | "private" and "channel" map to their own types; every other name maps to group. |
| Context.NewEndpoint | src/catgpt/context.py:15-40 | The four asserts in order, each with its own message; success exactly when all pass; the default model falls back to the first listed model. |
| Context.AllModelsMembers | src/catgpt/context.py:84-90 | A model is in the union exactly when some endpoint lists it. |
| Context.Configuration.GetDefaultEndpoint | src/catgpt/context.py:63-68 | The result is a configured endpoint; it is flagged exactly when some endpoint is flagged, and then it is the first flagged one; otherwise it is the first endpoint. |
| Context.Configuration.GetEndpoint | src/catgpt/context.py:70-75 | None exactly when no endpoint has the name; otherwise the first endpoint with that name. |
| Context.Configuration.GetEndpointByName | src/catgpt/context.py:70-75 | With distinct names, looking up an endpoint's own name finds that endpoint. |
| Context.Configuration.GetModels | src/catgpt/context.py:84-90 | The result is strictly sorted; it holds exactly the models some endpoint lists. |
| PyStr.SortedStrings | src/catgpt/context.py:90 | `sorted(set)`: strictly sorted, with exactly the elements of the set. |
| PyStr.SortedUnique | src/catgpt/context.py:90 | Two strictly sorted lists with the same elements are equal. |
| PyStr.ParseIntOfIntToString | src/catgpt/utils/text.py:58-78 | `int(str(n)) == n` for every integer. |
| PyStr.IntSpaceNarrower | src/catgpt/utils/text.py:50-53 | `int()` skips surrounding whitespace, but not U+001C-U+001F, which `strip()` removes. |
| PyStr.SplitJoin | src/catgpt/utils/text.py:58-78 | Splitting a joined list on the separator gives the list back when no item holds the separator. |
| PyStr.Replace | src/catgpt/commands/endpoints.py:11 | `str.replace` replaces every non-overlapping occurrence, from the left. |
| PyStr.WordsOfCommand | src/catgpt/commands/revoke.py:47 | `"/cmd arg".split()` gives the two words. |
| TgBot.CommandArgumentOf | src/catgpt/commands/endpoints.py:11 | If the name holds neither the command nor the bot name, the argument of `command + " " + name` is the name. |
| TgBot.CallbackFields | src/catgpt/commands/__init__.py:113-119 | Splitting a button's callback data on ':' gives back its action, its operation and its context's message id, chat id and user id. |
| Text.MessagesToSegments | src/catgpt/utils/text.py:6-32 | The method returns the segments of the greedy packing of the non-system blocks, with the last segment cut. |
| Text.PackMessages | src/catgpt/utils/text.py:12-24 | The loop computes exactly the greedy packing of the blocks: the completed segments and the open one. |
| Text.PackConcat | src/catgpt/utils/text.py:12-24 | Packing loses nothing: the segments joined are the blocks joined. |
| Text.PackFits | src/catgpt/utils/text.py:12-24 | When every block fits, every segment, the open one included, fits. |
| Text.SegmentsNonEmptyIff | src/catgpt/utils/text.py:6-32 | There is a segment exactly when some message is not a system message. |
| Text.LastSegmentBounded | src/catgpt/utils/text.py:26-30 | With `max_length >= 3`, the cut last segment is at most `max_length` long. |
| Text.SegmentsFitWhenBlocksFit | src/catgpt/utils/text.py:6-32 | When every block fits, every segment fits and the segments joined are the blocks joined. |
| Text.SystemMessageIgnored | src/catgpt/utils/text.py:14-15 | Inserting a system message anywhere does not change the segments. |
| Text.SplitByLength | src/catgpt/utils/text.py:35-36 | The pieces join back to the text; all pieces but the last have exactly the length; the last is non-empty and at most the length. |
| Text.SplitToSegments | src/catgpt/utils/text.py:39-46 | It fails exactly when the text is empty (or the length is not positive), as `segments[-1]` raises. |
| Text.SplitToSegmentsKeepsText | src/catgpt/utils/text.py:39-46 | The text is kept, in order, in front of the search result; the result is either its own segment or joined to the last piece by a blank line. |
| Text.SplitToSegmentsOverflows | src/catgpt/utils/text.py:41-44 | As written, "abc" with search result "d" and length 4 gives one segment of 6 characters. |
| Text.ToSegmentsFitted | src/catgpt/utils/text.py:39-46 | If the fit test counts the separator, every segment fits whenever the search result fits. |
| Text.TimeoutOfTrailingInteger | src/catgpt/utils/text.py:49-55 | A text ending in " n" yields n, whatever comes before it. |
| Text.RetryAfterExample | src/catgpt/utils/text.py:49-55 | "Too Many Requests: retry after 7" yields 7. |
| Text.NoTimeoutExample | src/catgpt/utils/text.py:49-55 | "Too Many Requests", whose last word is not an integer, yields -1. |
| Text.EncodeMessageIds | src/catgpt/utils/text.py:69-78 | Fails exactly on the empty list (the assertion); otherwise the comma fields are the first id and every later id's offset from it. |
| Text.EncodeMessageId | src/catgpt/utils/text.py:69-78 | The loop computes `EncodeMessageIds`. |
| Text.DecodeMessageId | src/catgpt/utils/text.py:58-66 | The loop computes `DecodeMessageIds`: None when some field is not an integer, otherwise the first id followed by each offset added to it. |
| Text.Rebase | src/catgpt/utils/text.py:58-66 | The first value is kept; every later value has the first added to it. |
| Text.RebaseOffsets | src/catgpt/utils/text.py:58-78 | Adding the first id back to every offset recovers the ids. |
| Text.MessageIdRoundTrip | src/catgpt/utils/text.py:58-78 | Decoding the encoding of any non-empty id list gives the list back. |
| Chat.DoReply | src/catgpt/commands/chat.py:125-206 | The method computes `Reply`: the loop's state after each chunk, stopping at a re-raised error, then the flush. |
| Chat.ConsumeChunk | src/catgpt/commands/chat.py:144-178 | One loop iteration computes one `Step`. |
| Chat.FinalFlush | src/catgpt/commands/chat.py:180-206 | The code after the loop computes `Flush`. |
| Chat.AbortIsFinal | src/catgpt/commands/chat.py:177-178 | After a re-raised edit error, later chunks change nothing. |
| Chat.RunKeepsContent | src/catgpt/commands/chat.py:144-178 | Shown text plus buffered text is always the concatenation of the chunk texts consumed. |
| Chat.ReplyIsWholeStream | src/catgpt/commands/chat.py:125-206 | A reply that returns normally returns every chunk's text, in order and uncut. |
| Chat.LoopEditsFit | src/catgpt/commands/chat.py:144-178 | Every call made inside the loop is an edit whose text fits in one Telegram message. |
| Chat.OverflowIsSticky | src/catgpt/commands/chat.py:144-149 | Once the overflow flag is set, a step only buffers: no call, no clock reset, and the flag stays set. |
| Chat.OverflowPersists | src/catgpt/commands/chat.py:144-157 | An overflowed stream stays overflowed to the end, with no further calls or shown text. |
| Chat.StepAttempts | src/catgpt/commands/chat.py:148-167 | An edit is attempted exactly when the flag is clear and the chunk is due; an attempt resets the clock and either sets the flag or makes one edit call; otherwise only the buffer grows. |
| Chat.FinishedChunkAttempts | src/catgpt/commands/chat.py:146-152 | A chunk with stop reason "stop" is always due; unless the flag is set it resets the clock and either sets the flag or makes exactly one edit call. |
| Chat.StepAnswer | src/catgpt/commands/chat.py:159-178 | For an edit that fits, Telegram's answer decides the next state: success shows the buffered text and restores the 1.8-second pause; 400 keeps the text buffered with a 2.5-second pause; 429 pauses for the description's seconds plus one, or 10 seconds; any other error is re-raised. |
| Chat.RetryAfterSeconds | src/catgpt/commands/chat.py:174-176 | A 429 description ending in " n" pauses for n + 1 seconds. |
| Chat.NoEarlyEdit | src/catgpt/commands/chat.py:151 | From the initial state, a chunk within the first pause that does not finish only buffers its text. |
| Chat.NoEarlyEdits | src/catgpt/commands/chat.py:132-151 | A whole stream of chunks within the first 1.8 s, none finishing, makes no call: the loop ends in the initial state holding the concatenated texts as buffered. |
| Chat.FlushNothingBuffered | src/catgpt/commands/chat.py:180-206 | With nothing buffered there is no sleep and no call, and the shown text is returned. |
| Chat.FlushCalls | src/catgpt/commands/chat.py:180-206 | With text buffered: sleep only if the pause has not passed; then edit with the whole text; after an overflow, send the last buffered text as a new message. |
| Chat.CoerceModel | src/catgpt/commands/chat.py:60-62 | The profile's model if the endpoint lists it, otherwise the endpoint's default model. |
| Chat.CoerceModelIdempotent | src/catgpt/commands/chat.py:60-62 | Coercing twice equals coercing once; with a listed default, the result is listed. |
| TgImage.FindCandidate | src/catgpt/utils/tg_image.py:7-17 | None exactly when every rendition is at least a million off; otherwise a rendition of minimal distance, the earliest such. |
| Prompt.GetSystemPrompt | src/catgpt/utils/prompt.py:20-28 | A prompt exists exactly for gpt-4 models; it names the model and its cutoff. |
| Prompt.SystemPromptCutoffs | src/catgpt/utils/prompt.py:3-28 | A listed model gets its own cutoff; an unlisted gpt-4 model gets the default; other families get no prompt. |
| Prompt.GetPrompt | src/catgpt/utils/prompt.py:31-37 | A system message exactly for a non-empty prompt, carrying it with every id and time zero. |
| Oai.ImageUrl | src/catgpt/provider/oai.py:35-39 | An online url is kept as it is; anything else becomes base64 jpeg data. |
| Oai.PayloadOf | src/catgpt/provider/oai.py:21-43 | Text and document become plain content; a photo without a media url fails; a photo with one becomes an image entry. |
| Oai.MessageToPayload | src/catgpt/provider/oai.py:18-45 | Succeeds exactly when every message converts; then one entry per message, in order. |
| Oai.PayloadList.InjectSystemPromptIfNeed | src/catgpt/provider/oai.py:9-15 | A list opening with a system entry, or a model without a system prompt, leaves the list alone; otherwise the prompt goes first and nothing else changes. |
| Gemini.RoleOf | src/catgpt/provider/gemini.py:27 | "assistant" maps to "model"; every other role maps to "user". |
| Gemini.PartsOf | src/catgpt/provider/gemini.py:28-35 | The image part exactly for a photo with a media url, first; the text part exactly when there is text, last. |
| Gemini.ContentsOfAppend | src/catgpt/provider/gemini.py:24-40 | Converting a conversation in pieces gives the same payload. |
| Gemini.TextMessageKept | src/catgpt/provider/gemini.py:24-40 | A text message is always sent, under its mapped role. |
| Gemini.MessageToPayload | src/catgpt/provider/gemini.py:24-40 | The loop computes the fold that drops messages without parts and keeps the order. |
| Telegraph.TagOf | src/catgpt/share/telegraph.py:199-205 | h1 becomes h3, h2 becomes h4, other headings become p, and every other tag is kept. |
| Telegraph.ElementNode | src/catgpt/share/telegraph.py:197-232 | Tag and attributes as mapped; children are the converted contents; an empty minor heading gets an empty strong child. |
| Telegraph.ParseElement | src/catgpt/share/telegraph.py:197-232 | The recursive method computes `ElementNode`. |
| Telegraph.MdToDom | src/catgpt/share/telegraph.py:234-243 | The loop computes `TopNodes`: blank strings dropped, text and elements converted, in order. |
| Telegraph.TopNodesAppend | src/catgpt/share/telegraph.py:234-243 | Converting a document in pieces gives the same nodes. |
| Telegraph.TopNodesCount | src/catgpt/share/telegraph.py:234-243 | Without blank strings there is one node per input, and no text node is empty. |
| Group.GroupInfoTable.GetGroupInfo | src/catgpt/storage/types.py:189-198 | None exactly when the chat has no row; otherwise a row of that chat. |
| Group.GroupInfoTable.UpdateGroupInfo | src/catgpt/storage/types.py:189-198 | Every row of the chat takes the setting; the chat's row then reads it back. |
| Group.KeysDistinct | src/catgpt/group.py:11 | Two chats share a memo key exactly when they are the same chat. |
| Group.GroupConfig.IsRespondGroupMessage | src/catgpt/group.py:10-23 | A remembered chat answers from the memo without touching storage; otherwise a missing row is created, and the default is remembered and returned. |
| Group.GroupConfig.UpdateRespondMessages | src/catgpt/group.py:25-27 | Storage and memo both take the new setting. |
| Sqlite3Datasource.Connection.Close | src/catgpt/storage/sqlite3_session_storage.py:33-40 | Closing records the close and releases to the datasource of a pooled connection. |
| Sqlite3Datasource.Sqlite3Datasource.constructor | src/catgpt/storage/sqlite3_session_storage.py:59 | The pool starts with one fresh connection. |
| Sqlite3Datasource.Sqlite3Datasource.GetWriteConn | src/catgpt/storage/sqlite3_session_storage.py:61-63 | Takes the pooled connection, leaving the pool empty; None when the pool was empty, where the await would block. |
| Sqlite3Datasource.Sqlite3Datasource.GetReadConn | src/catgpt/storage/sqlite3_session_storage.py:65-66 | A new connection that releases to nothing. |
| Sqlite3Datasource.Sqlite3Datasource.Release | src/catgpt/storage/sqlite3_session_storage.py:68-70 | Refills only an empty pool, so the pool never holds more than one connection. |
| Tx.StateValue | src/catgpt/storage/tx.py:12-16 | Values 0 to 3, with 0 exactly for Init. |
| Tx.ExitOps | src/catgpt/storage/tx.py:38-94 | The exit always ends with close; it tries a commit exactly for an open transaction whose body returned, and rolls back exactly for an open one whose body raised or whose commit raised; a failed commit gives commit, rollback, close. |
| Tx.Begin | src/catgpt/storage/tx.py:61-74 | Joins the ambient transaction, refusing a write inside a read; otherwise opens and binds a fresh one of the requested kind, on the pooled connection for writes. |
| Tx.Finish | src/catgpt/storage/tx.py:76-94 | A joining call does nothing and passes the body's outcome on; the owning call performs `ExitOps`, unbinds, closes and releases, and ends raising exactly when the body or its commit raised. |
| Tx.Transaction.FailedCommit | src/catgpt/storage/tx.py:38-40 | A commit whose connection call raises is attempted on the connection and leaves the state as it was. |
| Tx.RetrieveTransaction | src/catgpt/storage/tx.py:23-28 | The ambient transaction, or "Transaction not found". |
| Tx.GetTransaction | src/catgpt/storage/tx.py:101-111 | The ambient transaction, or a fresh unbound one; the context is unchanged. |
| Sqlite3SessionStorage.EncodeContent | src/catgpt/storage/sqlite3_session_storage.py:85-98 | Non-photos are stored as they are; a photo as `url,content`. |
| Sqlite3SessionStorage.DecodeContent | src/catgpt/storage/sqlite3_session_storage.py:75-83 | Non-photos are read as they are; a photo gets the first field as url and the second field as content. |
| Sqlite3SessionStorage.PlainRowReadBack | src/catgpt/storage/sqlite3_session_storage.py:75-109 | A stored non-photo is read back as given, under the batch's topic and without a media url. |
| Sqlite3SessionStorage.PhotoRowReadBack | src/catgpt/storage/sqlite3_session_storage.py:75-109 | A photo round-trips exactly when it has a url and neither the url nor the content holds a comma. |
| Sqlite3SessionStorage.AppendedRowsAreSelected | src/catgpt/storage/sqlite3_session_storage.py:91-114 | A batch appended to a topic is read back, after the older rows, by a query naming that topic. |
| Sqlite3SessionStorage.AppendedRowsAreNotSelected | src/catgpt/storage/sqlite3_session_storage.py:91-114 | A batch appended to a topic is invisible to a query not naming it. |
| Sqlite3SessionStorage.PlainRowsReadBack | src/catgpt/storage/sqlite3_session_storage.py:91-114 | Stored non-photo messages are read back as given, under the batch's topic id. |
| Sqlite3SessionStorage.GroupedSelection | src/catgpt/storage/sqlite3_session_storage.py:176-193 | Grouping one query's decoded result by topic gives each topic exactly its own messages, decoded, in rowid order. |
| Sqlite3SessionStorage.Sqlite3TopicStorage.AppendMessage | src/catgpt/storage/sqlite3_session_storage.py:91-114 | The message table gains the batch's rows, in order; topics are unchanged. |
| Sqlite3SessionStorage.Sqlite3TopicStorage.GetMessages | src/catgpt/storage/sqlite3_session_storage.py:176-193 | The stored messages of the named topics, decoded, in rowid order. |
| Sqlite3SessionStorage.Sqlite3TopicStorage.GetTopic | src/catgpt/storage/sqlite3_session_storage.py:196-203 | None exactly when no row has the id; otherwise a row with the id. |
| Sqlite3SessionStorage.Sqlite3TopicStorage.ListTopics | src/catgpt/storage/sqlite3_session_storage.py:206-220 | Exactly the rows of the user and chat, and of the thread when it is not 0. |
| Sqlite3SessionStorage.Sqlite3TopicStorage.DeleteTopic | src/catgpt/storage/sqlite3_session_storage.py:223-226 | The topic's rows go and its messages stay. |
| Sqlite3SessionStorage.Sqlite3TopicStorage.RemoveMessages | src/catgpt/storage/sqlite3_session_storage.py:229-235 | Exactly the named messages of the topic go. |
| Sqlite3SessionStorage.Sqlite3TopicStorage.RemoveMessageByTopic | src/catgpt/storage/sqlite3_session_storage.py:238-240 | Afterwards no message of the topic is stored, and the others stay. |
| Sqlite3SessionStorage.Sqlite3TopicStorage.CreateTopic | src/catgpt/storage/sqlite3_session_storage.py:243-257 | A row under a fresh positive id that no older row has, which is returned and then found. |
| Sqlite3SessionStorage.Sqlite3TopicStorage.UpdateTopic | src/catgpt/storage/sqlite3_session_storage.py:260-272 | Every row with the topic's id takes all its columns; the others are unchanged. |
| Sqlite3SessionStorage.UpdatedRows | src/catgpt/storage/sqlite3_session_storage.py:343-359 | Rows keyed like the profile take its model, endpoint, prompt and topic id; other rows are unchanged. |
| Sqlite3SessionStorage.Sqlite3ProfileStorage.CreateProfile | src/catgpt/storage/sqlite3_session_storage.py:299-315 | The row is appended and its new rowid returned. |
| Sqlite3SessionStorage.Sqlite3ProfileStorage.GetProfile | src/catgpt/storage/sqlite3_session_storage.py:318-327 | The first row with the key `(uid, chat_id, thread_id or 0)`, or None exactly when there is none. |
| Sqlite3SessionStorage.Sqlite3ProfileStorage.Update | src/catgpt/storage/sqlite3_session_storage.py:343-359 | The keyed rows are reconfigured, and the keyed lookup then reads the reconfigured row. |
| Sqlite3SessionStorage.Sqlite3UserStorage.GetUser | src/catgpt/storage/sqlite3_session_storage.py:278-285 | The first row with the uid, or None exactly when there is none. |
| Sqlite3SessionStorage.Sqlite3UserStorage.CreateUser | src/catgpt/storage/sqlite3_session_storage.py:288-293 | The row is appended with a new rowid; a new uid is then found. |
| TopicService.Exchange | src/catgpt/topic.py:20-37 | The user's turn, then the assistant's, with their texts, ids and chats, under the topic; the user's at its own date, the assistant's at its own date plus one. |
| TopicService.RowsIgnoreStamp | src/catgpt/topic.py:78-79 | Re-stamping a batch does not change its stored rows. |
| TopicService.GroupByTopic | src/catgpt/topic.py:63-67 | Each key maps to exactly that topic's messages, in order and non-empty; absent keys have none. |
| TopicService.AttachMessages | src/catgpt/topic.py:69-70 | Each listed topic takes exactly its own messages. |
| TopicService.RestampAll | src/catgpt/topic.py:78-79 | Every seed message takes the new topic id. |
| TopicService.Topics.GetMessages | src/catgpt/topic.py:12-13 | The stored messages of the topics, decoded, in rowid order. |
| TopicService.Topics.AppendMessages | src/catgpt/topic.py:15-39 | The message table gains the user's turn, then the assistant's. |
| TopicService.Topics.RemoveMessages | src/catgpt/topic.py:41-45 | Fails exactly for a non-positive topic or no ids; otherwise removes exactly those messages. |
| TopicService.Topics.GetTopic | src/catgpt/topic.py:47-56 | The topic row, with its decoded messages when asked for. |
| TopicService.Topics.ListTopics | src/catgpt/topic.py:58-72 | One result per listed row, each carrying exactly its own stored messages, decoded, in rowid order. |
| TopicService.Topics.CreateTopic | src/catgpt/topic.py:74-82 | The topic row under a fresh id, then its seed messages re-stamped; the result carries the id and the messages. |
| TopicService.Topics.UpdateTopic | src/catgpt/topic.py:84-86 | Fails exactly for a non-positive id; otherwise the row takes the topic's columns. |
| TopicService.Topics.NewTopic | src/catgpt/topic.py:88-108 | A topic with the given fields and seed messages, created under a fresh id. |
| TopicService.Topics.ClearTopic | src/catgpt/topic.py:110-121 | The messages are replaced by the prompt alone, or nothing; the topic is renamed "new topic" with a fresh label and title generation on. |
| TopicService.Topics.RemoveTopic | src/catgpt/topic.py:123-128 | Fails exactly for a non-positive id; otherwise the row and all its messages are gone. |
| UserProfile.PresetsOf | src/catgpt/user_profile.py:17-31 | Never empty; without a file, only the "System" preset. |
| UserProfile.PresetTableWellFiled | src/catgpt/user_profile.py:26-28 | Every entry is complete and filed under its own role. |
| UserProfile.PresetTableKeys | src/catgpt/user_profile.py:26-28 | A role is in the table exactly when some complete entry names it. |
| UserProfile.PresetTableLastWins | src/catgpt/user_profile.py:26-28 | The last complete entry of a role is the one kept. |
| UserProfile.UidCheck | src/catgpt/user_profile.py:62-83 | Passes exactly for a positive uid; otherwise fails with the uid in the message. |
| UserProfile.ModelCheck | src/catgpt/user_profile.py:66-68 | Passes exactly for a positive uid and a non-empty model; the uid is checked first. |
| UserProfile.HasProfileMeans | src/catgpt/user_profile.py:85-94 | A user has a profile exactly when some row has the uid. |
| UserProfile.UserProfile.constructor | src/catgpt/user_profile.py:17-31 | The loop builds the preset table of the file; the memo starts empty. |
| UserProfile.UserProfile.GetPreset | src/catgpt/user_profile.py:59-60 | The preset of the name exactly when there is one; it is complete and filed under that name. |
| UserProfile.UserProfile.GetPrompt | src/catgpt/user_profile.py:107-109 | The preset's prompt, or "" for a name that is not a preset. |
| UserProfile.UserProfile.IsEnrolled | src/catgpt/user_profile.py:85-94 | True exactly when storage has a profile for the uid; only a positive answer is remembered; the memo stays sound. |
| UserProfile.UserProfile.Update | src/catgpt/user_profile.py:62-64 | Fails on a bad uid without change; otherwise the keyed rows are reconfigured. |
| UserProfile.UserProfile.UpdateModel | src/catgpt/user_profile.py:66-70 | The checks in order; on success the stored profile takes the model, and the table is the storage's update with it, so rows under other keys are unchanged. |
| Endpoints.SwitchedProfile | src/catgpt/commands/endpoints.py:79-83 | The new endpoint; the model is coerced as in the chat handler; nothing else changes. |
| Endpoints.SwitchedRow | src/catgpt/commands/endpoints.py:79-85 | The row a switch stores is the switched profile. |
| Endpoints.DoEndpointChange | src/catgpt/commands/endpoints.py:55-94 | "dismiss" deletes the menu; an unknown name gives a notice; a switch stores the switched profile and confirms it; a failure leaves the profiles unchanged. |
| Endpoints.EndpointButtons | src/catgpt/commands/endpoints.py:27-43 | One button per endpoint carrying its name, then "dismiss" when there is any endpoint. |
| Endpoints.MenuButtons | src/catgpt/commands/endpoints.py:27-43 | The loop computes `EndpointButtons`. |
| Endpoints.HandleEndpoints | src/catgpt/commands/endpoints.py:9-52 | A configured name switches at once, the table becoming the storage's update with the switched profile; anything else shows the menu with the current endpoint and changes nothing, as does any failure. |
| Models.FastSwitchModel | src/catgpt/commands/models.py:36-58 | The text itself if listed, else its alias target if listed, else none; a result is always listed. |
| Models.ChangeModel | src/catgpt/commands/models.py:148-189 | The current model is confirmed without an update; a model the endpoint lacks is refused; otherwise the profile takes the model and it is confirmed, the table becoming the storage's update of the stored row with that model and nothing else. |
| Models.DoModelChange | src/catgpt/commands/models.py:112-145 | "dismiss" deletes the menu; a missing profile fails; no endpoint, a non-integer or an out-of-range index does nothing; an index of a model of the profile's endpoint changes to that model under the checks of `_do_model_change`, the table becoming the storage's update of that row, or staying as it was on failure or an unchanged model. |
| Models.ModelButtons | src/catgpt/commands/models.py:80-100 | One button per model carrying its index, then "dismiss" when there is any model. |
| Models.DisplayModels | src/catgpt/commands/models.py:71-109 | A menu with the heading and `ModelButtons`. |
| Models.ModelButtonSelects | src/catgpt/commands/models.py:80-145 | The button showing `models[i]` hands `DoModelChange` an operation that parses back to `i`. |
| Models.HandleModels | src/catgpt/commands/models.py:27-68 | An argument naming a model of the profile's endpoint, or an alias of one, changes to it, the table becoming the storage's update of that row, or staying as it was on failure or an unchanged model; otherwise the menu is shown and nothing changes. |
| Revoke.ChatMessages | src/catgpt/commands/revoke.py:21-23 | Exactly the messages of the chat. |
| Revoke.RevokeCount | src/catgpt/commands/revoke.py:17-35 | Never more than the chat holds, and at least one when it holds any. |
| Revoke.RevokeSelection | src/catgpt/commands/revoke.py:17-35 | The latest `RevokeCount` messages of the chat, in order. |
| Revoke.SuffixStopsAtUser | src/catgpt/commands/revoke.py:32-33 | Without a count, the selection starts at the latest user message and holds no other. |
| Revoke.GetMessagesToRevoke | src/catgpt/commands/revoke.py:17-35 | The backward walk computes `RevokeSelection`. |
| Revoke.SelectionIsSuffix | src/catgpt/commands/revoke.py:17-35 | What the walk ends with is the selection. |
| Revoke.CountArgument | src/catgpt/commands/revoke.py:47 | No second word means no count. |
| Revoke.CountOfCommand | src/catgpt/commands/revoke.py:47 | `/revoke n` carries the count n. |
| Revoke.Capped | src/catgpt/commands/revoke.py:71-72 | A prefix of the text, at most 4095 characters long; shorter texts are kept whole. |
| Revoke.HandleRevoke | src/catgpt/commands/revoke.py:38-80 | Without a conversation, or with nothing of the chat in it, a notice; otherwise a confirmation listing the selection. |
| Revoke.MessageIds | src/catgpt/commands/revoke.py:126 | The ids of the selection, in order. |
| Revoke.DoRevoke | src/catgpt/commands/revoke.py:83-138 | "no" deletes the confirmation and the command; a missing conversation or an empty selection gives its notice without change; otherwise the messages selected as for the confirmation are removed from the topic and deleted from the chat with the confirmation, and their number is reported; topic rows never change. |

## Left out

- Text.SplitByLength: a zero length raises `ValueError` in Python; the model requires a non-zero length.
- The `ContextVar` and `asyncio` concurrency are not modelled; the ambient transaction is one `TxContext` object, and an await on an empty write pool is the `PoolEmpty` outcome.
- `ConnectionProxy` forwards every other attribute to the sqlite3 connection; the model keeps only commit, rollback and close, as a list of operations.
- A rowid is modelled as one more than the last one given out; SQLite's reuse of rowids is not modelled.
- The message-holder operations of the storage are not modelled (`save_message_holder` binds six values to seven placeholders).
- `get_conversation_id`, `update_prompt` and `update_conversation_id` are modelled only through their uid check.
- Printing, timing and the `debug` trace callback are not modelled.
- The clock is read once per chunk and once at the end; these readings are parameters, in whole milliseconds rather than floating-point seconds.
- The Markdown escaping for Telegram is a parameter.
- The uuid labels of new topics are parameters.
- The `DOCUMENT` message type is used by the OpenAI payload builder but not defined in `MessageType`; the model gives it the value 3.
- Image download and base64 decoding are parameters (`decodeImage`).
- TopicService.Topics.ListTopics: the service calls the storage's `list_topics` with two arguments, but the storage takes three; the model passes the thread id through.
- TopicService.Topics.NewTopic: its callers pass `thread_id`, which `new_topic` neither declares nor passes to the `Topic` constructor that requires it; the model takes the thread id and stores it in the new topic.
- Sqlite3SessionStorage.Sqlite3ProfileStorage.Update: the `uid`, `chat_id` and `thread_id` arguments are not used by the statement, which keys on the profile's own fields.
- Message contents of `None` are not modelled; an absent content is "".
- Messages, topics and profiles are values; the identity of the Python objects is not modelled.
- `get_title_endpoint` picks an endpoint at random, and `do_generate_title` calls the network; neither is modelled.
- Network calls to the model endpoints are not modelled; `ask_stream` is the sequence of chunks.
- Endpoints.DoEndpointChange, Models.ChangeModel, Models.DoModelChange and Revoke.DoRevoke require a non-empty id list; the router always decodes at least one id.
- Oai.PayloadList.InjectSystemPromptIfNeed requires a non-empty list, as the source indexes `messages[0]`.
- UserProfile: `load`, `create` and `enroll` call a storage API keyed by uid alone that the profile storage does not offer; they are not modelled.
- Endpoints.HandleEndpoints: as written, `profiles.load(uid, chat_id, thread_id)` (src/catgpt/commands/endpoints.py:22) passes three arguments to the one-parameter `UserProfile.load` (src/catgpt/user_profile.py:33) and raises TypeError; the model reads the profile storage's keyed row instead.
- Endpoints.DoEndpointChange: as written, its `profiles.load` call (src/catgpt/commands/endpoints.py:80) raises TypeError in the same way; the model reads the keyed row instead.
- Models.HandleModels: as written, its `profiles.load` call (src/catgpt/commands/models.py:29) raises TypeError in the same way; the model reads the keyed row instead.
- Models.DoModelChange: as written, its `profiles.load` call (src/catgpt/commands/models.py:124) raises TypeError in the same way; the model reads the keyed row instead.
- Revoke.HandleRevoke: as written, `get_convo` (src/catgpt/commands/revoke.py:9-14, called at line 40) raises TypeError at its `profiles.load` call; the model takes the conversation as a parameter instead.
- Revoke.DoRevoke: as written, its `get_convo` call (src/catgpt/commands/revoke.py:96) raises TypeError in the same way; the model takes the conversation as a parameter instead.
- UserProfile.UserProfile.IsEnrolled: as written, `is_enrolled` calls the storage's `get_profile(uid, chat_id, thread_id)` with the uid alone, which raises TypeError for every uid not yet remembered; the model instead answers whether some profile row has that uid.
- UserProfile.UserProfile.Update: as written, `update(uid, profile)` calls the storage's four-parameter `update(uid, chat_id, thread_id, profile)` with two arguments, and its callers pass four arguments to its two parameters (src/catgpt/commands/endpoints.py:85); both raise TypeError. The model instead takes the caller's uid, chat id, thread id and profile, and passes them to the storage.
- UserProfile.UserProfile.UpdateModel: the profile storage has no `update_model`, and the caller passes four arguments (src/catgpt/commands/models.py:181) to its two parameters; the model takes the caller's key and persists the model through the storage's update.
- The `GroupInfoStorage` implementation is not part of this model; it is an in-memory table with the first row per chat.
- The layout of keyboard buttons in rows is not modelled; a menu is its list of buttons.
- TopicService.Topics.CreateTopic: storage statements never fail in the model, and a rollback's effect on the tables is not modelled; only the success half is proved, not that a failure part-way through leaves no topic row without its messages.
- TopicService.Topics.ClearTopic: as for CreateTopic, only the success half is proved; that the message removal, the prompt insertion and the topic update happen all or nothing in one write transaction is not modelled.
- TopicService.Topics.RemoveTopic: as for CreateTopic, only the success half is proved; that the row and message deletions happen all or nothing in one write transaction is not modelled.
- PyStr.ParseInt: only ASCII digits are accepted; `int()` also accepts the decimal digits of other scripts, such as U+FF13.
- Tx.Finish: a rollback or a close that raises is not modelled. A failing rollback records the same operations and the call raises anyway; a failing close leaves the state unset, but the connection proxy still releases its connection in its `finally`.
- Telegraph: the Markdown and HTML parsing are foreign libraries; the model starts from the parsed tree, with attribute values as strings.
- `is_mention_me` and `message_check` in the chat handler are not modelled.

## Findings

| source | as written | input that shows it | evidently intended | confidence | as-written member | corrected member |
|---|---|---|---|---|---|---|
| src/catgpt/utils/text.py:41-44 | The test of whether the search result fits into the last segment omits the two characters of the "\n\n" separator. | Text "abc", search result "d", length 4 give the segment "abc\n\nd" of 6 characters. | Join only when the last piece, the separator and the search result together fit within the length. | not executed | Text.SplitToSegmentsOverflows | Text.ToSegmentsFitted |
