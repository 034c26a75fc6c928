# A Dafny model of the x_agent_webui console

x_agent_webui is the web console of a Xiaohongshu (XHS) marketing and
automation service. Operators use it to:

- collect notes and comments for keywords;
- filter and analyse the comments for intent;
- reach out to their authors with reply templates;
- write and publish notes through a two-step wizard;
- manage devices, users, industries and invitation codes.

The console also talks to a Dify chat service, to Tencent Cloud's
lightweight-server API and to Tencent object storage (COS).

This project models the console's logic. That is the request building of
its API clients, the state changes its pages and stores make, and the
checks that guard each action. Rendering is not modelled. There is one
module per source file. Several modules hold what the files share:

- `Base`: option, result and fetch-outcome shapes;
- `Strings`, `Seqs`: the JavaScript string and array idioms;
- `Arith`: the integer division facts that paging and batching rely on;
- `JsonValues`, `JsObjects`: parsed JSON and insertion-ordered objects;
- `Http`: query strings;
- `Paging`: client-side pagination;
- `NoteText`: the topic and @-user list codec;
- `Uploads`: image-upload entries and paths;
- `Profiles`: profile rows.

These inputs become parameters or inputs of the model:

- the network, Supabase, Airflow and the storage SDK;
- `JSON.parse`;
- the clock and random values;
- hashing and URI encoding.

Every operation below is a pure function of them.

## Model

| member | source | states |
|---|---|---|
| Dify.GetApiKey | src/api/dify.ts:7-20 | the first configuration name that matches picks its key, and an absent or unknown configuration gets the beauty key |
| Dify.OwnKeys | src/api/dify.ts:8-16 | when the four configuration names are distinct, each configuration gets its own key |
| Dify.LimitParam | src/api/dify.ts:196 | the limit parameter is always sent, as 20 when the limit is absent or zero |
| Dify.LimitRoundTrip | src/api/dify.ts:196 | a positive limit is sent as decimal digits that read back as the same number |
| Dify.LastIdParam | src/api/dify.ts:195 | the cursor is sent, once, exactly when it is a non-empty string |
| Dify.MessageParams | src/api/dify.ts:189-198 | the message query sends user and conversation first, then the cursor exactly when given, and the limit last |
| Dify.ConversationParams | src/api/dify.ts:206-215 | the conversation query sends the user first and the limit last, and never a sort_by parameter |
| Dify.ConversationParamsAreMessageParams | src/api/dify.ts:189-215 | the conversation query is the message query with the conversation id taken out |
| Dify.OrDefault | src/api/dify.ts:590-591 | a present truthy value is kept; a missing or falsy one is replaced by the fallback |
| Dify.ChatRequest | src/api/dify.ts:588-592 | the request gets response_mode blocking and inputs {} as defaults, every other property keeps its value, and the caller's properties keep their order |
| Dify.ChatRequestIdempotent | src/api/dify.ts:588-592 | filling in the defaults twice gives the same request as once |
| Dify.DefaultModeIsBlocking | src/api/dify.ts:590-596 | a request that names no mode is never streamed, listener or not |
| Dify.Frames | src/api/dify.ts:624 | splitting on blank lines always gives at least one piece |
| Dify.FramesJoin | src/api/dify.ts:624 | joining the pieces with the blank-line separator gives back the text |
| Dify.FirstFrameStart | src/api/dify.ts:624 | the first piece is empty only at a separator or at the end, and otherwise starts with the text's first character |
| Dify.FramesAreLeftmost | src/api/dify.ts:624 | no piece holds a blank line and no piece but the last ends in a line break, so the split is the leftmost one |
| Dify.OneFrame | src/api/dify.ts:624 | a text that splits into one piece is that piece |
| Dify.FramesAppend | src/api/dify.ts:623-625 | appending text leaves every finished piece alone and only splits the last piece again together with the new text, which is why the reader may keep just the last piece |
| Dify.FrameEvent | src/api/dify.ts:628-630 | a piece starting with `data: ` carries what parsing the rest gives; any other piece carries no event |
| Dify.AllEvents | src/api/dify.ts:627-640 | the pieces carry at most one event each |
| Dify.UpToError | src/api/dify.ts:633-635 | the events cut at the first error event are a prefix of the events, and all of them when there is no error event |
| Dify.UpToErrorAppend | src/api/dify.ts:633-635 | cutting a concatenation cuts the first part when it holds an error, and otherwise keeps the first part and cuts the second |
| Dify.HandleFramesSpec | src/api/dify.ts:627-640 | the handler delivers exactly the events the pieces carry up to and including the first error event, and stops exactly when there is one |
| Dify.StoppedStays | src/api/dify.ts:633-635 | once the handler has stopped, further pieces change nothing |
| Dify.FinalEvent | src/api/dify.ts:643-650 | the leftover buffer gives at most one event |
| Dify.StreamEventsSpec | src/api/dify.ts:618-651 | the listener gets every event of the finished pieces cut at the first error event, and only when there is no error also the event of the leftover piece |
| Dify.ErrorOnlyLast | src/api/dify.ts:633-635 | only the very last event the listener receives can be an error event |
| Dify.StoppedEvents | src/api/dify.ts:633-635 | once the finished pieces stop the reading, nothing read after them reaches the listener |
| Dify.UpToErrorNoEarlyError | src/api/dify.ts:633-635 | before the cut there is no error event |
| Dify.ProcessStream | src/api/dify.ts:618-651 | reading the body chunk by chunk delivers the same events as splitting the whole body at once |
| Dify.HandleLines | src/api/dify.ts:627-640 | the loop over one chunk's finished pieces continues the handler over those pieces |
| Dify.NextChunk | src/api/dify.ts:623-625 | after one more chunk the finished pieces grow by those of the old buffer plus the chunk, and the new buffer is the last piece |
| Dify.StopInsideChunk | src/api/dify.ts:633-635 | an error event among one chunk's pieces ends the stream with the events delivered so far |
| Dify.FramesOfExtension | src/api/dify.ts:623-625 | text added after a split leaves its finished pieces alone |
| Dify.FinalFrame | src/api/dify.ts:642-650 | without an error event the listener gets the finished pieces' events and then the leftover piece's event |
| Dify.SendChatMessage | src/api/dify.ts:583-662 | the request with its defaults goes out under the configuration's key; it is streamed exactly when the mode is streaming and there is a listener, and a streamed call fails on a non-ok status or a missing body and otherwise delivers the events of the whole body |
| TencentCloud.RegionFor | src/api/tencent_cloud.ts:167 | a non-empty region given with the query is used, otherwise the configured region |
| TencentCloud.IdIndexOf | src/api/tencent_cloud.ts:345 | the key `InstanceIds.i` reads back as the id's position i |
| TencentCloud.FilterKeysDecode | src/api/tencent_cloud.ts:352-354 | every key of filter g reads back as filter g; a value key reads back as its value position, the name key as no value |
| TencentCloud.IdEntries | src/api/tencent_cloud.ts:343-347 | there is one `InstanceIds.i` property per id, in order, holding that id |
| TencentCloud.ValueEntries | src/api/tencent_cloud.ts:353-355 | there is one `Filters.f.Values.j` property per value, in order, holding that value |
| TencentCloud.IdEntriesDistinct | src/api/tencent_cloud.ts:343-347 | the id properties never share a key |
| TencentCloud.FilterEntriesDistinct | src/api/tencent_cloud.ts:350-357 | the filter properties never share a key, and each names a filter at or after the starting number |
| TencentCloud.OptionEntriesShape | src/api/tencent_cloud.ts:360-363 | the option properties have distinct keys among Offset, Limit, OrderField and Order, and a Limit property holds the query's limit |
| TencentCloud.OptionMember | src/api/tencent_cloud.ts:360-363 | Offset and Limit appear only when given and then hold the given value; OrderField and Order hold the query's texts |
| TencentCloud.ParamKeyLetters | src/api/tencent_cloud.ts:343-357 | id keys start with I and filter keys with F, so they can never clash with the option keys |
| TencentCloud.ParamKeysDistinct | src/api/tencent_cloud.ts:339-366 | the keys the parameter preparation writes are pairwise distinct |
| TencentCloud.PrepareParams | src/api/tencent_cloud.ts:339-366 | assigning the ids, the filters and the options one by one into an empty object gives the id, filter and option properties in that order, with distinct keys |
| TencentCloud.AssignIds | src/api/tencent_cloud.ts:343-347 | the id loop appends the id properties in order |
| TencentCloud.AssignFilters | src/api/tencent_cloud.ts:350-357 | the filter loop appends each filter's name and then its values, filter by filter |
| TencentCloud.AssignFilter | src/api/tencent_cloud.ts:352-355 | one filter appends its name property and then its value properties |
| TencentCloud.AssignValues | src/api/tencent_cloud.ts:353-355 | the value loop appends the value properties in order |
| TencentCloud.AssignOptions | src/api/tencent_cloud.ts:360-363 | the four guarded assignments append exactly the options that are present, in order |
| TencentCloud.AssignOpt | src/api/tencent_cloud.ts:360 | a guarded assignment of a new key appends the property exactly when it is present and keeps the keys distinct |
| TencentCloud.ParamEntriesKeys | src/api/tencent_cloud.ts:339-366 | no prepared key is Action or Version, and a prepared Limit holds the query's limit |
| TencentCloud.DescribePayload | src/api/tencent_cloud.ts:171-175 | the signed body of an instance listing is Limit first, holding the given limit or 100, then every other prepared parameter in the order it was written |
| TencentCloud.DescribeAssign | src/api/tencent_cloud.ts:171-175 | spreading the prepared parameters over the base object keeps the base and appends every parameter except Limit, whose value is overwritten in place |
| TencentCloud.DescribeBaseWithout | src/api/tencent_cloud.ts:171-175 | of the base object of a listing only Limit reaches the signed body |
| TencentCloud.PayloadIdempotent | src/api/tencent_cloud.ts:408-415 | removing Action and Version twice is the same as once |
| TencentCloud.ActionRequest | src/api/tencent_cloud.ts:215-285 | reboot, isolate and terminate are refused for an empty id list with the operation's message; otherwise the request names the action and the API version and has distinct keys |
| TencentCloud.ActionPayload | src/api/tencent_cloud.ts:223-227 | the signed body of an instance action is the id array, and for isolation the data-disk flag after it |
| TencentCloud.PutIf | src/api/tencent_cloud.ts:311-326 | a guarded assignment appends the property to an object lacking the key exactly when the guard holds, and the key is present afterwards exactly when it was before or the guard held |
| TencentCloud.CreatePayload | src/api/tencent_cloud.ts:298-327 | the signed body of a create call is the three required properties and then each optional property that was set, in the order assigned; the request itself names CreateInstances and the API version |
| TencentCloud.PayloadAfterHeaders | src/api/tencent_cloud.ts:408-415 | a request made of the two header properties and a body lacking them is signed with exactly that body |
| TencentCloud.CreateBodyKeys | src/api/tencent_cloud.ts:302-326 | neither Action nor Version is among the properties of a create call |
| TencentCloud.CreateRequestShape | src/api/tencent_cloud.ts:302-326 | the create request is the object literal followed by the optional properties that were set |
| TencentCloud.FourPuts | src/api/tencent_cloud.ts:311-326 | four guarded assignments of distinct new keys append the present properties in order |
| TencentCloud.Send | src/api/tencent_cloud.ts:396-401 | an error inside the reply fails with `API错误: ` and its message; any other reply gives its Response |
| TencentCloud.VncUrl | src/api/tencent_cloud.ts:187-210 | the VNC page URL is built exactly when the reply carries a truthy address, and a failed call passes its error on |
| TencentCloud.ListOf | src/api/tencent_cloud.ts:179 | a reply's array is returned as is, and a missing or falsy one gives an empty list |
| TencentCloud.WithRegion | src/api/tencent_cloud.ts:149-152 | an instance is tagged with its region and otherwise unchanged |
| TencentCloud.AllRegionInstances | src/api/tencent_cloud.ts:140-163 | the map has exactly the supported regions as keys; a failing region maps to no instances, any other to its instances each tagged with the region |
| TencentCloud.Sign | src/api/tencent_cloud.ts:428-466 | the signature is built from the canonical request over the payload hash, the credential scope of the day and the four-line string to sign, and the authorization names the algorithm, the secret id, the scope and the signed headers, followed by the hex HMAC of the string to sign under the key derived from the secret key, the day, the service and `tc3_request` |
| TencentCloud.CanonicalRequestLines | src/api/tencent_cloud.ts:433-446 | the canonical request splits back into method, path, empty query, the two header lines, a blank line, the signed headers and the payload hash |
| TencentCloud.CanonicalRequestJoin | src/api/tencent_cloud.ts:433-446 | the canonical request is its eight lines joined by line breaks |
| TencentCloud.CredentialScopeParts | src/api/tencent_cloud.ts:448 | the credential scope splits back into the day, the service and tc3_request |
| TencentCloud.StringToSignLines | src/api/tencent_cloud.ts:451-456 | the string to sign splits back into the algorithm, the timestamp, the credential scope and the canonical request's hash |
| TencentCos.NormalizedPath | src/api/tencent_cos.ts:74 | an empty folder stays empty; any other folder is kept and ends in exactly one added or existing slash |
| TencentCos.ObjectKey | src/api/tencent_cos.ts:74-77 | the key is the file name when there is no folder, and otherwise starts with the folder and ends with the file name |
| TencentCos.ModeFor | src/api/tencent_cos.ts:82-131 | files below 10 MiB go up in one request, larger ones in 5 MiB slices |
| TencentCos.BucketFor | src/api/tencent_cos.ts:84 | a non-empty bucket argument wins over the configured bucket |
| TencentCos.ObjectUrl | src/api/tencent_cos.ts:115 | the hand-built URL is the bucket's regional COS host followed by the key |
| TencentCos.Upload | src/api/tencent_cos.ts:72-172 | the upload mode follows the size; an SDK error fails the upload, replaced by the CORS explanation when it mentions CORS; a success returns the key and the SDK's URL or else the hand-built one |
| TencentCos.FileType | src/api/tencent_cos.ts:243-258 | the type is the table entry of the lower-cased text after the last dot, and application/octet-stream when there is none |
| TencentCos.FileTypeByExtension | src/api/tencent_cos.ts:243-258 | a file named stem.ext gets the type of ext whatever its case and folder |
| TencentCos.ListItem | src/api/tencent_cos.ts:216-230 | a listed object keeps its key, size and date, is named by the last slash segment of its key, and gets the configured bucket's URL and the key's type |
| TencentCos.ListFiles | src/api/tencent_cos.ts:215-231 | there is one entry per listed object, in listing order |
| TencentCos.KeyEndsWithName | src/api/tencent_cos.ts:74-77 | the last slash segment of an uploaded key is the file's name |
| TencentCos.UploadedFileIsListed | src/api/tencent_cos.ts:72-122 | a file uploaded into the configured bucket without an SDK URL is listed under its own name, at the URL the upload returned |
| MySqlApi.KeptMembers | src/api/mysql.ts:39-42 | a parameter is sent exactly when some property the test accepts produces it |
| MySqlApi.TruthyMembers | src/api/mysql.ts:39-100 | the message lists send exactly the name/text pairs of the truthy properties |
| MySqlApi.DefinedMembers | src/api/mysql.ts:215-222 | the public-account chat query sends exactly the pairs of the properties that are not undefined |
| MySqlApi.KeptAppend | src/api/mysql.ts:40-42 | keeping properties distributes over concatenation |
| MySqlApi.DefinedSendsAll | src/api/mysql.ts:218-222 | with no undefined property every property is sent, in order |
| MySqlApi.KeptWithin | src/api/mysql.ts:41 | a stricter test sends an order-preserving sub-list of what a looser one sends |
| MySqlApi.TruthyWithinDefined | src/api/mysql.ts:41 | the truthy rule sends the defined rule's pairs with some left out, in the same order |
| MySqlApi.FalsyOnlyWhenDefined | src/api/mysql.ts:41 | a property holding "" or 0 is sent by the defined rule and not at all by the truthy rule |
| MySqlApi.BaseOr | src/api/mysql.ts:180 | an unset base URL becomes the empty string |
| MySqlApi.RoomListUrl | src/api/mysql.ts:71-115 | the room list URL always has a `?`, followed by wx_user_id exactly when a non-empty one is given |
| MySqlApi.MessagesUrl | src/api/mysql.ts:30-44 | the URL is the base, /messages? and then the encoded truthy parameters; it ends at the ? exactly when no parameter is truthy |
| MySqlApi.NothingTruthy | src/api/mysql.ts:39-42 | no parameter is sent exactly when no property is truthy |
| MySqlApi.MpRoomListUrl | src/api/mysql.ts:170-183 | the public-account room list is the bare base without an account, and the base with `?gh_user_id=` and the account otherwise |
| MySqlApi.MpChatUrl | src/api/mysql.ts:204-227 | the base alone when no property is defined, and otherwise the base, a `?` and every defined property |
| MySqlApi.SummaryUrl | src/api/mysql.ts:416-423 | the summary URL always carries both identifiers, wx_user_id first |
| MySqlApi.MpChatUrlReadsBack | src/api/mysql.ts:215-227 | for a base without `?`, the URL splits back into the base and the query of the defined properties |
| MySqlApi.TokenUsageParams | src/api/mysql.ts:293-310 | a missing query or platform, then a missing user, is an error with its message; otherwise the platform and the user come first |
| MySqlApi.TokenUsageOptionalAreTruthy | src/api/mysql.ts:303-310 | after the two required pairs the token usage query sends exactly the truthy optional properties, in the order room, start, end, limit, offset |
| MySqlApi.TokenUsageUrl | src/api/mysql.ts:293-315 | the token usage URL fails exactly when the parameters do, and otherwise is the base, a `?` and the parameters |
| MySqlApi.FailureMessageNamesFetch | src/api/mysql.ts:46 | every failure message says what could not be fetched |
| MySqlApi.Answer | src/api/mysql.ts:45-48 | a response yields its body exactly when it is ok, and otherwise a failure naming the fetch |
| Http.QueryString | src/api/mysql.ts:44 | the query string is empty exactly when no parameter is appended |
| Http.QueryStringSplits | src/api/mysql.ts:39-44 | since the encoder escapes `&`, the query string splits back into one name=value text per parameter, in order |
| Http.WithQuery | src/api/mysql.ts:181-183 | an empty query leaves the base alone, and any other follows it after a `?` |
| Http.SplitUrlRoundTrip | src/api/mysql.ts:181-183 | an address without `?` and its query read back from the URL as they were |
| JsonValues.StringArray | src/xhs/pages/contentCreationManagement/drafts.tsx:431-432 | a string list is encoded as an array of as many JSON strings, in order |
| JsonValues.StringArrayRoundTrip | src/xhs/pages/contentCreationManagement/drafts.tsx:202-204 | encoding a string list and reading it back gives the same list |
| JsObjects.HasKeyIndex | src/api/tencent_cloud.ts:345 | a key is present exactly when some property carries it |
| JsObjects.Get | src/api/tencent_cloud.ts:179 | a lookup finds nothing exactly when no property carries the key |
| JsObjects.GetAppend | src/api/tencent_cloud.ts:171-175 | a lookup in a concatenation looks in the first part and then in the second |
| JsObjects.Put | src/api/tencent_cloud.ts:345-354 | an assignment appends a new key, keeps the key order for a present key, and makes the key hold the value |
| JsObjects.PutOther | src/api/dify.ts:588-592 | assigning one key leaves the value of every other key as it was |
| JsObjects.PutSame | src/api/dify.ts:588-592 | assigning a key the value it already holds changes nothing |
| JsObjects.PutNext | src/api/tencent_cloud.ts:343-347 | in a loop over entries with distinct keys, assigning the next entry appends it |
| JsObjects.Without | src/api/tencent_cloud.ts:408-413 | deleting keys leaves no deleted key, adds no key, and keeps distinct keys distinct |
| JsObjects.WithoutAppend | src/api/tencent_cloud.ts:412-413 | deleting keys distributes over concatenation |
| JsObjects.WithoutNothing | src/api/tencent_cloud.ts:412-413 | deleting keys no property carries leaves the object as it is |
| JsObjects.AssignAppends | src/api/tencent_cloud.ts:171-175 | spreading an object with distinct keys that agrees with the target on shared keys keeps the target and appends the properties it lacks, in order |
| JsObjects.DistinctKeysAppend | src/api/tencent_cloud.ts:339-366 | two objects with distinct keys and no key in common join into one with distinct keys |
| JsObjects.DistinctKeysSplit | src/api/tencent_cloud.ts:339-366 | each part of an object with distinct keys has distinct keys, and no key of the first part occurs in the second |
| ProxyCache.Get | src/setupProxy.js:80 | the entry found carries the key, and nothing is found exactly when no entry has the key |
| ProxyCache.Delete | src/setupProxy.js:99 | exactly the entries with other keys stay, in order, and distinct keys stay distinct |
| ProxyCache.Set | src/setupProxy.js:120-124 | the new entry is the one found for its key, entries of other keys stay, nothing else appears, keys stay distinct, and the size grows by one only for a new key |
| ProxyCache.ReplaceKeepsPlace | src/setupProxy.js:120-124 | overwriting a present key keeps the size and the keys distinct and makes the new entry the one found |
| ProxyCache.AppendGoesLast | src/setupProxy.js:120-124 | setting an absent key keeps the keys distinct and makes the new entry the one found |
| ProxyCache.FindOldest | src/setupProxy.js:14-22 | the scan finds an entry exactly when the cache is not empty, and the entry found has the smallest timestamp, the first of equals |
| ProxyCache.CleanCache | src/setupProxy.js:10-38 | cleaning keeps order and distinct keys and leaves no expired entry; within the limit every live entry stays, and over it only the oldest entry goes besides the expired ones, and not even that when its key is empty |
| ProxyCache.CacheKey | src/setupProxy.js:44-65 | the key is the original URL, or the URL when that is empty, followed for a POST with a body by a colon and the body text or JSON, unless the body cannot be serialised |
| ProxyCache.BodiesSeparateKeys | src/setupProxy.js:49-56 | two POSTs to one URL with different non-empty text bodies are cached under different keys |
| ProxyCache.Lookup | src/setupProxy.js:68-101 | a request that does not use the cache is passed on; a fresh entry answers it with its data; a stale entry is deleted and, like a missing one, leads to a miss under the request's key |
| ProxyCache.StoreResponse | src/setupProxy.js:107-131 | a response of another content type leaves the cache alone; a cacheable one is set under the key and the cache is cleaned only when it grew over the limit, after which it is within the limit again |
| DataCollect.ConfEmail | src/xhs/pages/DataCollect.tsx:401-403 | an email is read only from a configuration that parses to an object |
| DataCollect.MergeTasks | src/xhs/pages/DataCollect.tsx:380-397 | the merged task list is a permutation of the notes runs followed by the comments runs, sorted newest start first, and runs that started at the same time keep that order |
| DataCollect.VisibleTasks | src/xhs/pages/DataCollect.tsx:399-413 | administrators and users without an email see every run; any other user sees, in order, exactly the runs whose configuration names their email, each as many times as it occurs there |
| DataCollect.UnparsableHidden | src/xhs/pages/DataCollect.tsx:401-407 | task isolation never shows a run whose configuration does not parse |
| DataCollect.StatusLabel | src/xhs/pages/DataCollect.tsx:1070-1078 | success reads 成功 unless the run was paused (已结束), running reads 运行中 and failed reads 失败 |
| DataCollect.StatusLabelRaw | src/xhs/pages/DataCollect.tsx:1070-1078 | the raw state is shown exactly when it is none of success, running and failed |
| DataCollect.TaskQuantity | src/xhs/pages/DataCollect.tsx:1018-1040 | a run whose id contains xhs_comments shows max_comments, any other max_notes, a falsy value showing 0, and the keyword or ''; a configuration that does not parse or parses to null leaves the defaults, including "not a comments task" |
| DataCollect.NotesTotalPages | src/xhs/pages/DataCollect.tsx:469-473 | a server page count is used as is; otherwise the count is the least number of 1000-note pages that holds the total |
| DataCollect.JumpToNotesPage | src/xhs/pages/DataCollect.tsx:563-571 | an empty field or no keyword does nothing; a jump happens exactly to a parsed page between 1 and the page count |
| DataCollect.Reverse | src/xhs/pages/DataCollect.tsx:220 | the reversed list has the same length and element i is the input's element counted from the back |
| DataCollect.PickKeyword | src/xhs/pages/DataCollect.tsx:215-235 | no keywords means nothing is picked; otherwise the list is shown reversed and the shared latest keyword stays selected when fetched, else the last keyword fetched |
| DataFilter.KeywordList | src/xhs/pages/DataFilter.tsx:130-131 | the keywords are the comma pieces of the field, each trimmed, with the empty ones dropped, in order |
| NoteText.CleanIsTrimThenFilter | src/xhs/pages/contentCreationManagement/drafts.tsx:47-53 | cleaning a list is trimming every piece and then dropping the empty ones |
| DataFilter.ApplyFilters | src/xhs/pages/DataFilter.tsx:110-147 | with no original comments the filtered list stays as it was; otherwise the result is an order-preserving sub-list of the original comments |
| DataFilter.StagesAreOneFilter | src/xhs/pages/DataFilter.tsx:119-136 | the likes, length and keyword filters applied in a row keep exactly the comments meeting all three conditions, in their original order |
| DataFilter.ApplyFiltersSpec | src/xhs/pages/DataFilter.tsx:117-149 | every kept comment passes all filters, kept contents are pairwise distinct, each kept comment is the first passing comment with its content, and every passing comment's content is represented |
| DataFilter.LikesThreshold | src/xhs/pages/DataFilter.tsx:119-122 | with a positive likes threshold every kept comment has at least that many likes |
| DataFilter.LikesInput | src/xhs/pages/DataFilter.tsx:205 | an unparsable likes field means threshold 0, a parsed one is taken as is |
| DataFilter.MinLengthInput | src/xhs/pages/DataFilter.tsx:215 | the length threshold is never 0: a missing or zero value becomes 2 |
| DataFilter.PassToAnalysis | src/xhs/pages/DataFilter.tsx:161-172 | the filtered comments are stored exactly when there are some, with a success message; otherwise nothing is stored and an error is shown |
| DataAnalyze.OptionList | src/xhs/pages/DataAnalyze.tsx:92-111 | an option list starts with 全部; it then holds the server's list when one came back, otherwise the distinct non-empty record values in order of first appearance, each non-empty value appearing |
| DataAnalyze.BuildOptions | src/xhs/pages/DataAnalyze.tsx:86-120 | without response data both lists are just 全部; with data the keyword and intent lists are built from the server lists or the records' own fields |
| DataAnalyze.FilterIntents | src/xhs/pages/DataAnalyze.tsx:244-260 | with no records nothing changes; otherwise the view returns to page 1 and shows, in order, exactly the records whose keyword and intent the two choices select, each as many times as it occurs there |
| DataAnalyze.ByChoiceSpec | src/xhs/pages/DataAnalyze.tsx:249-255 | one narrowing step keeps, in order, exactly the rows whose field the choice selects (全部 selects all), each as many times as it occurs there |
| DataAnalyze.StartAnalysis | src/xhs/pages/DataAnalyze.tsx:131-155 | no comments is an error; otherwise the run carries the profile sentence and the ids of the first 20 comments, in order |
| DataAnalyze.CheckStatus | src/xhs/pages/DataAnalyze.tsx:199-230 | a run not in the list is reported as an error; a found run's state becomes the task state and its end date, when it has one, the task's end date; success or failed becomes the page status, only success refetches the intents, and failed reports the failure message |
| DataAnalyze.OtherStatesKeepRunning | src/xhs/pages/DataAnalyze.tsx:224-227 | a found run in any state other than success or failed leaves a running page running |
| DataAnalyze.Quote | src/xhs/pages/DataAnalyze.tsx:287 | a quoted cell starts and ends with a double quote |
| DataAnalyze.UnescapeEscape | src/xhs/pages/DataAnalyze.tsx:287 | doubling every double quote is undone by the unescaping reader |
| DataAnalyze.QuoteRoundTrip | src/xhs/pages/DataAnalyze.tsx:287-291 | an exported content or analysis cell reads back as exactly the original text |
| DataAnalyze.EscapeNoneOf | src/xhs/pages/DataAnalyze.tsx:287 | escaping introduces no separator character that the text did not hold |
| DataAnalyze.RowCells | src/xhs/pages/DataAnalyze.tsx:283-293 | a row has one cell per header, and its content and analysis cells unquote to the record's content and analysis |
| DataAnalyze.CsvLines | src/xhs/pages/DataAnalyze.tsx:281-294 | there is one line more than there are records, and line i+1 is record i's row |
| DataAnalyze.CsvLinesHeader | src/xhs/pages/DataAnalyze.tsx:282 | the first line is the header |
| DataAnalyze.ExportCsv | src/xhs/pages/DataAnalyze.tsx:272-296 | nothing to export is an error; otherwise the export is the lines joined by line breaks |
| DataAnalyze.HeaderColumns | src/xhs/pages/DataAnalyze.tsx:280-282 | the header line splits on commas into exactly the nine column names |
| DataAnalyze.HeaderCellsPlain | src/xhs/pages/DataAnalyze.tsx:280 | no column name holds a comma |
| DataAnalyze.RowOneLine | src/xhs/pages/DataAnalyze.tsx:283-293 | a record without line breaks in its cells gives a row without line breaks |
| DataAnalyze.HeaderOneLine | src/xhs/pages/DataAnalyze.tsx:280-282 | the header has no line break |
| DataAnalyze.ExportLines | src/xhs/pages/DataAnalyze.tsx:281-296 | when no cell holds a line break, the export splits back on line breaks into the header followed by one row per record, in order |
| SortButton.Click | src/components/BaseComponents/SortUpOrDownButton.tsx:20-32 | the click counter advances modulo 3; the callback fired is up exactly when the new count is 1, down exactly when it is 2, and reset exactly when it is 0 |
| SortButton.Clicks | src/components/BaseComponents/SortUpOrDownButton.tsx:20-32 | a run of n clicks fires n callbacks, the k-th the one of state times + k + 1 modulo 3 (up for 1, down for 2, reset for 0), and leaves the button in state times + n modulo 3 |
| SortButton.HighlightFollowsCallback | src/components/BaseComponents/SortUpOrDownButton.tsx:20-37 | the up arrow is highlighted exactly after up fired, the down arrow exactly after down fired, and neither after reset |
| SortButton.ThreeClicksFromStart | src/components/BaseComponents/SortUpOrDownButton.tsx:18-32 | from a fresh button three clicks fire up, down and reset in that order and leave the button as it started |
| SortButton.ThreeClicksUnfold | src/components/BaseComponents/SortUpOrDownButton.tsx:20-32 | three clicks in a row are the three single clicks in turn |
| SortButton.ClickCycle | src/components/BaseComponents/SortUpOrDownButton.tsx:20-32 | from any reachable state three clicks come back to it, firing each of up, down and reset |
| SortButton.ThreeClicksCycle | src/components/BaseComponents/SortUpOrDownButton.tsx:20-32 | from any reachable state three clicks come back to it, having fired every callback |
| NavBar.TrimSlash | src/navBar/navBar.tsx:70 | a route ending in `/` loses exactly that one slash; any other route is kept |
| NavBar.SelectedFor | src/navBar/navBar.tsx:69-79 | when no item matches the trimmed route the selection falls back to 系统管理 |
| NavBar.SelectedIsFirstMatch | src/navBar/navBar.tsx:69-79 | when some item matches, the selection is the name of the first matching item in menu order |
| NavBar.SubPageSelectsCustomerAcquisition | src/navBar/navBar.tsx:41-79 | the collection sub-page, with or without a trailing slash, selects 智能获客 in the real menu |
| NavBar.ExpandForRoute | src/navBar/navBar.tsx:94-106 | after a route change an item is expanded exactly when it was already or it owns the visited page; nothing else about any item changes |
| NavBar.ExpandIdempotent | src/navBar/navBar.tsx:94-106 | visiting the same route again expands nothing more |
| NavBar.Click | src/navBar/navBar.tsx:158-177 | the clicked item becomes selected; an item with sub-items has its expansion toggled and navigates only when it was collapsed; any other item navigates and leaves the menu unchanged |
| NavBar.ClickTwiceRestores | src/navBar/navBar.tsx:158-177 | clicking an item with sub-items twice restores the menu, and exactly one of the two clicks navigates |
| NavBar.Visible | src/navBar/navBar.tsx:261 | the menu shows, in order, exactly the items that are not reserved for administrators, or every item for an administrator, each as many times as it occurs there |
| NavBar.AdminSeesAll | src/navBar/navBar.tsx:261 | an administrator sees the whole menu |
| NavBar.UserMenu | src/navBar/navBar.tsx:39-57 | other users see the real menu without 系统管理 |
| Paging.ClampIndex | src/xhs/pages/DataCollect.tsx:557 | an index inside the list is kept and one past its end is clamped to the length |
| Paging.JsSlice | src/xhs/pages/DataCollect.tsx:557 | a slice with ends inside the list is that subsequence; an end past the list stops at the end; a start past the list gives nothing; element k is element start + k |
| Paging.TotalPages | src/xhs/pages/DataCollect.tsx:1129 | the page count is the least number of ten-row pages that hold every row |
| Paging.PageSlice | src/xhs/pages/DataCollect.tsx:555-557 | row i of page p is row (p - 1)·10 + i of the list; a page holds at most ten rows, all ten when the list reaches its end, the remainder on the last page, and nothing past the last page |
| Paging.PageIsChunk | src/xhs/pages/DataAnalyze.tsx:362-406 | the page count is the number of ten-row chunks, and page p is the p-th chunk |
| Paging.PagesCoverList | src/xhs/pages/DataAnalyze.tsx:362-406 | reading pages 1 to the last in order shows every row exactly once, in list order |
| Paging.GoToPage | src/management/userManagement/UserManagement.tsx:101-105 | the page changes to the target exactly when it is between 1 and the page count; otherwise it stays |
| Paging.GoToPageKeepsRange | src/management/userManagement/UserManagement.tsx:101-105 | the current page never drops below 1, and stays within the page count when it started within it |
| Paging.RawWindowFacts | src/xhs/pages/DataCollect.tsx:1126-1159 | the page buttons are min(5, pages) consecutive real pages and include the current page when it is a real one |
| Paging.PageWindow | src/xhs/pages/DataCollect.tsx:1126-1159 | for n rows the pager shows min(5, pages) consecutive page numbers, each a real page, and among them the current page whenever it is a real one; the first button is 1 when there are at most five pages or the current page is among the first three, pages − 4 when it is among the last three, and otherwise two before the current page |
| Paging.ShowPagerIffSeveralPages | src/xhs/pages/DataCollect.tsx:1108 | the pager is shown exactly when the rows fill more than one page |
| Paging.SearchView | src/management/userManagement/UserManagement.tsx:79-92 | with nothing loaded the view stays; otherwise it shows page 1 of exactly the matching rows in list order, each as many times as it occurs there, with the least page count that holds them |
| Paging.SearchAllShowsEverything | src/management/industry/IndustryManagement.tsx:65-76 | a term every row matches shows the whole list over the pages it needs |
| Drafts.DraftList | src/xhs/pages/contentCreationManagement/drafts.tsx:117 | the draft list keeps, in order, exactly the notes whose status is the number 0, each as many times as it occurs there |
| Drafts.NonBlankStrings | src/xhs/pages/contentCreationManagement/drafts.tsx:203-207 | the kept items are exactly the non-blank string items, in order, read as their text |
| Drafts.CommaPieces | src/xhs/pages/contentCreationManagement/drafts.tsx:213 | the legacy comma format keeps every non-blank piece, untrimmed, in order, as often as it occurs, and nothing else |
| Drafts.ImageUrls | src/xhs/pages/contentCreationManagement/drafts.tsx:196-214 | a draft without an image list has no images; text that does not parse is read as comma pieces; a parsed array gives its non-blank strings unless an item makes the blank test throw, when the comma pieces are used instead; any other parsed value is treated as a one-item list |
| Drafts.CompleteUrl | src/xhs/pages/contentCreationManagement/drafts.tsx:218-222 | a URL starting with http is kept; any other stored path is encoded and placed under the bucket's base URL |
| Drafts.ExistingFiles | src/xhs/pages/contentCreationManagement/drafts.tsx:217-231 | there is one done entry per stored image, numbered existing-0, existing-1, ... and carrying the completed URL and no file |
| Drafts.ExistingUidsDistinct | src/xhs/pages/contentCreationManagement/drafts.tsx:228 | the entries of one draft never share a uid |
| Drafts.StoredPath | src/xhs/pages/contentCreationManagement/drafts.tsx:353-357 | a URL that does not contain myqcloud.com/ is kept as it is |
| Drafts.PathOf | src/xhs/pages/contentCreationManagement/drafts.tsx:349-377 | a loaded image gives back its stored path; a new entry succeeds exactly when it has its file object and its upload succeeds, and is then stored under email/account/name; without the object it fails with the missing-object message, and a failed upload fails with the upload's error |
| Drafts.StoredPathInvertsCompletion | src/xhs/pages/contentCreationManagement/drafts.tsx:218-222 | completing a stored path and reading it back at upload gives the path again, for paths encoding leaves alone that neither start with http nor contain myqcloud.com/ |
| Drafts.ForeignUrlKept | src/xhs/pages/contentCreationManagement/drafts.tsx:218-222 | a full URL elsewhere survives completion and read-back unchanged |
| Drafts.UploadPaths | src/xhs/pages/contentCreationManagement/drafts.tsx:344-385 | without files, account or email nothing is uploaded; otherwise the outcome is that of turning every entry into its path |
| Drafts.PathsOf | src/xhs/pages/contentCreationManagement/drafts.tsx:349-385 | the uploads fail exactly when one entry fails, and otherwise path i is what entry i gives |
| Drafts.ReopenKeepsPaths | src/xhs/pages/contentCreationManagement/drafts.tsx:196-231 | reopening a draft with stored plain paths and saving it unchanged writes back exactly the same paths |
| Drafts.ReopenedUrls | src/xhs/pages/contentCreationManagement/drafts.tsx:202-204 | a stored JSON array of non-blank strings reads back as those strings |
| Drafts.ResavedPaths | src/xhs/pages/contentCreationManagement/drafts.tsx:352-357 | saving the untouched entries of stored paths gives back those paths |
| Drafts.DraftUpdate | src/xhs/pages/contentCreationManagement/drafts.tsx:470-509 | with no draft open the save fails; with a failed upload it fails with the fixed retry message; with a draft open and every upload succeeding it succeeds; the update carries status 2 for submit and 0 for save, the draft id, email, title, content, account as author and device, the parsed topics and users as JSON arrays, a blank image list without files and otherwise the JSON array of the uploaded paths |
| Drafts.ResaveReopenedDraft | src/xhs/pages/contentCreationManagement/drafts.tsx:470-509 | saving a reopened draft unchanged succeeds and writes back its stored paths as the image list, whatever the storage would answer to new uploads |
| NoteContent.BeforeUploadAsWritten | src/xhs/pages/contentCreationManagement/components/AddNewTaskContent.tsx:58-72 | with the constants' list the check accepts exactly image/jpg and image/png files below 5 MiB |
| NoteContent.JpegRejectedAsWritten | src/xhs/pages/contentCreationManagement/constants.ts:7 | a small JPEG file, reported as image/jpeg, is turned away as the wrong type |
| NoteContent.BeforeUploadFixed | src/xhs/pages/contentCreationManagement/components/AddNewTaskContent.tsx:58-72 | with the corrected list the check accepts exactly JPEG, PNG and GIF files below 5 MiB |
| NoteContent.FixedAcceptsAdvertisedTypes | src/xhs/pages/contentCreationManagement/components/AddNewTaskContent.tsx:59-61 | the corrected check accepts JPEG, PNG and GIF files under 5 MiB and nothing else, as its error message promises |
| NoteContent.DeviceIdNone | src/xhs/pages/contentCreationManagement/components/AddNewTaskContent.tsx:227-238 | when no account entry names the account, the device id is empty |
| NoteContent.DeviceIdLast | src/xhs/pages/contentCreationManagement/components/AddNewTaskContent.tsx:227-238 | otherwise the device id is the key of the last entry naming the account |
| NoteContent.ScanDeviceId | src/xhs/pages/contentCreationManagement/components/AddNewTaskContent.tsx:227-238 | the scan that overwrites the id at every match finds the same device as the last-match definition |
| NoteContent.FormValuesChange | src/xhs/pages/contentCreationManagement/components/AddNewTaskContent.tsx:203-251 | only edited fields appear in the update; topics become the trimmed non-empty pieces of the typed text split on either comma, in order; @-users are stored as a JSON array of the same pieces of their text; a changed account also sets its device and regenerates the image paths when files are listed |
| NoteContent.ClearAllImages | src/xhs/pages/contentCreationManagement/components/AddNewTaskContent.tsx:254-258 | no files are left and the only change sent is an empty image field |
| NoteTable.RenderStatus | src/xhs/pages/contentCreationManagement/ContentCreationManagement.tsx:156-173 | a missing or null status shows 未知, and 未知 goes with the default colour and no other |
| NoteTable.NumericStatusLabels | src/xhs/pages/contentCreationManagement/ContentCreationManagement.tsx:157-171 | a numeric status is known exactly for 0, 1, 2 and -1; a saved draft shows 草稿, a submitted note 等待 |
| NoteTable.OrDash | src/xhs/pages/contentCreationManagement/ContentCreationManagement.tsx:202-207 | a truthy value is shown as is and any other as "-", so a cell is never falsy |
| NoteTable.FormatRows | src/xhs/pages/contentCreationManagement/ContentCreationManagement.tsx:199-210 | there is one row per note, in order, keyed by the id or else the position, with the status and the note passed through and no falsy text cell |
| NoteTable.RowsKeepValues | src/xhs/pages/contentCreationManagement/ContentCreationManagement.tsx:200-209 | a truthy title or content is the note's own, and a missing author shows "-" |
| NoteTable.Cell | src/xhs/pages/contentCreationManagement/ContentCreationManagement.tsx:226-233 | the placeholder "/" is shown as "-" and any other text as it is |
| NoteTable.AfterFetch | src/xhs/pages/contentCreationManagement/ContentCreationManagement.tsx:119-126 | the pager shows the requested page and size, and the server's total unless it is 0, else the number of notes returned |
| NoteText.Clean | src/xhs/pages/contentCreationManagement/drafts.tsx:47-53 | cleaning yields non-empty trimmed entries, never more than the pieces |
| NoteText.CleanEntries | src/xhs/pages/contentCreationManagement/drafts.tsx:47-53 | cleaning pieces that hold no comma yields entries |
| NoteText.ParseList | src/xhs/pages/contentCreationManagement/drafts.tsx:47-67 | the list is the typed text split on either comma, each piece trimmed and the empty ones dropped, in order; so an empty field is the empty list and every entry is a non-empty trimmed text without commas |
| NoteText.CleanSplitFormat | src/xhs/pages/contentCreationManagement/drafts.tsx:47-58 | splitting the displayed text of a non-empty entry list and cleaning the pieces recovers the list |
| NoteText.ParseFormatRoundTrip | src/xhs/pages/contentCreationManagement/drafts.tsx:47-58 | showing a list of entries and parsing the text again gives the same list |
| NoteText.ParseIsStable | src/xhs/pages/contentCreationManagement/drafts.tsx:47-58 | parsing the displayed form of a parsed field gives the same list as parsing the field |
| NoteText.SafeParseAtUsers | src/xhs/pages/contentCreationManagement/drafts.tsx:70-78 | the stored array is returned when the field holds a JSON array, and the empty list otherwise |
| NoteText.SafeParseStored | src/xhs/pages/contentCreationManagement/drafts.tsx:70-78 | reading back the @-user field the editor stored gives one item per parsed name |
| NoteWizard.SanitizeFileName | src/xhs/pages/contentCreationManagement/components/AddNewTaskModal.tsx:36-39 | the name keeps its length; each comma of either kind becomes `_` and every other character stays |
| NoteWizard.SanitizeIdempotent | src/xhs/pages/contentCreationManagement/components/AddNewTaskModal.tsx:36-39 | sanitising twice is sanitising once, and a name without commas is left alone |
| NoteWizard.EscapeEmail | src/xhs/pages/contentCreationManagement/components/AddNewTaskModal.tsx:158 | the escaped email holds neither @ nor . |
| NoteWizard.EscapeEmailParts | src/xhs/pages/contentCreationManagement/components/AddNewTaskModal.tsx:158 | escaping works piece by piece and leaves an email without @ and . alone |
| NoteWizard.EscapeEmailByChar | src/xhs/pages/contentCreationManagement/components/AddNewTaskModal.tsx:158 | escaping goes character by character: @ becomes _at_, . becomes _dot_, every other character stays, in order |
| NoteWizard.TimeStamp | src/xhs/pages/contentCreationManagement/components/AddNewTaskModal.tsx:157 | the stamp keeps the length of the ISO time, turns each -, : and . into _ and keeps every other character |
| NoteWizard.TimeStampIdempotent | src/xhs/pages/contentCreationManagement/components/AddNewTaskModal.tsx:157 | stamping a stamp again changes nothing |
| NoteWizard.RunId | src/xhs/pages/contentCreationManagement/components/AddNewTaskModal.tsx:157-159 | the run id is notes_publish_, then the escaped email, then _, then the time stamp |
| NoteWizard.RunIdHasNoAtOrDot | src/xhs/pages/contentCreationManagement/components/AddNewTaskModal.tsx:157-159 | the run id holds neither @ nor . |
| NoteWizard.Merge | src/xhs/pages/contentCreationManagement/components/AddNewTaskModal.tsx:247-252 | each field supplied in the update replaces the old one and every other field is kept |
| NoteWizard.MergeLaws | src/xhs/pages/contentCreationManagement/components/AddNewTaskModal.tsx:247-252 | an empty update changes nothing, repeating an update changes nothing more, and two updates compose into one |
| NoteWizard.FirstStepError | src/xhs/pages/contentCreationManagement/components/AddNewTaskModal.tsx:263-333 | the first step passes exactly when account, title and content are set, and otherwise reports the first one missing in that order |
| NoteWizard.NextOrSubmit | src/xhs/pages/contentCreationManagement/components/AddNewTaskModal.tsx:319-348 | before the last step it advances exactly when the first-step check passes; on the last step it submits exactly when title, content, visibility and account are set |
| NoteWizard.PreviousUndoesNext | src/xhs/pages/contentCreationManagement/components/AddNewTaskModal.tsx:255-335 | going back undoes a successful next |
| NoteWizard.UploadEach | src/xhs/pages/contentCreationManagement/components/AddNewTaskModal.tsx:111-152 | the uploads fail exactly when one file fails; otherwise every file had its data and was stored, and name i is file i's sanitised name |
| NoteWizard.UploadImages | src/xhs/pages/contentCreationManagement/components/AddNewTaskModal.tsx:106-107 | nothing is uploaded without files, an account or an email |
| NoteWizard.UploadedListParses | src/xhs/pages/contentCreationManagement/components/AddNewTaskModal.tsx:138 | the uploaded names joined by commas split back into exactly those names |
| NoteWizard.SubmitParams | src/xhs/pages/contentCreationManagement/components/AddNewTaskModal.tsx:165-192 | the status is 0 exactly for a draft and 2 otherwise; the tags field is blank exactly without tags and otherwise holds them; an empty @-user field is sent as "[]"; title, content, author, device, images, visibility and email are the note's |
| NoteWizard.FinalImages | src/xhs/pages/contentCreationManagement/components/AddNewTaskModal.tsx:279-293 | without files the note's image field is kept; with files the save succeeds exactly when the upload does, which it does when every file has its object and is stored; the field is then the uploaded names joined by commas, which split back into them; a failure carries the fixed retry message |
| NoteWizard.SaveDraft | src/xhs/pages/contentCreationManagement/components/AddNewTaskModal.tsx:260-316 | a failing first-step check stops the save before any upload, a failed upload stops it with the retry message, and a passing check with every upload succeeding saves; a saved note goes out with status 0, its title, content, account, device and email, and the image field just computed |
| NoteWizard.SubmitFromLastStep | src/xhs/pages/contentCreationManagement/components/AddNewTaskModal.tsx:336-386 | an incomplete note is refused with its message, a failed upload stops the submit with the retry message, and a complete note whose uploads all succeed is submitted with the status the wizard's draft flag gives, its title, content and account, and the image field just computed |
| NoteWizard.SaveAndSubmitDifferOnlyInStatus | src/xhs/pages/contentCreationManagement/components/AddNewTaskModal.tsx:260-386 | a saved draft and a submitted note built from the same data and files carry the same parameters except the status, which the save forces to 0 |
| Uploads.BeforeUpload | src/xhs/pages/contentCreationManagement/components/AddNewTaskContent.tsx:58-72 | a file is accepted exactly when its type is listed and it is below 5 MiB, the type being checked first |
| Uploads.ShowUploadButton | src/xhs/pages/contentCreationManagement/components/AddNewTaskContent.tsx:359 | the upload button is offered exactly while fewer than nine images are listed |
| Uploads.RemoveFile | src/xhs/pages/contentCreationManagement/components/AddNewTaskContent.tsx:173-177 | exactly the entries with another uid stay, in order, each as many times as it occurs there |
| Uploads.DonePaths | src/xhs/pages/contentCreationManagement/components/AddNewTaskContent.tsx:86-87 | the paths are the email/account/name paths of the finished files, one per finished file, in list order |
| Uploads.GenerateImagePaths | src/xhs/pages/contentCreationManagement/components/AddNewTaskContent.tsx:82-89 | without an email, or without an account given or on the note, the field is empty; otherwise it is the finished files' paths under that account joined by `,` |
| Uploads.DonePathsCons | src/xhs/pages/contentCreationManagement/components/AddNewTaskContent.tsx:85-87 | the first file contributes its path, when finished, in front of the paths of the rest |
| Uploads.ImagePathsParse | src/xhs/pages/contentCreationManagement/components/AddNewTaskContent.tsx:82-89 | when no part holds a comma, the field splits back on commas into the path of every finished file, in order |
| LegacyWizard.NextOrSubmit | src/xhs/pages/contentCreationManagement.tsx:1347-1384 | the first step advances exactly when the newer wizard's first-step check finds nothing missing; the last step submits exactly when title, content, visibility and account are all filled, and otherwise names the first missing one in that order with its own message |
| LegacyWizard.SameGateAsNewerWizard | src/xhs/pages/contentCreationManagement.tsx:1347-1384 | the legacy page and the newer dialog reject exactly the same notes at every step, and agree on the outcome whenever they do not reject |
| LegacyWizard.StatusTag | src/xhs/pages/contentCreationManagement.tsx:1489-1500 | the tag always shows the status text; 成功 is green, 失败 red, 等待 orange, and any other status takes the default colour |
| LegacyWizard.FormatNumber | src/xhs/pages/contentCreationManagement.tsx:1519-1525 | zero is shown as "-", and any count of ten thousand or more ends in 万 |
| Chat.Send | src/xhs/pages/contentCreationManagement/chat.tsx:130-150 | blank input or a reply still pending changes nothing and sends nothing; otherwise the history gains the user's message followed by the typing placeholder, the input is cleared, the page waits for a reply, and the request carries the input and the prompt kind |
| Chat.ReplaceTyping | src/xhs/pages/contentCreationManagement/chat.tsx:187 | every placeholder, and only a placeholder, is replaced by the given message; the history keeps its length and order |
| Chat.ReplyContent | src/xhs/pages/contentCreationManagement/chat.tsx:165-180 | a reply is shown as a script exactly when it is script mode and the text parses to an object with a truthy `video_title` and an array `script`; otherwise the text is shown unchanged |
| Chat.ApplyReply | src/xhs/pages/contentCreationManagement/chat.tsx:181-192 | afterwards some message carries the reply's id; placeholders become the reply and every other message stays; the reply is appended exactly when the history had neither a placeholder nor a message with its id |
| Chat.ApplyFailure | src/xhs/pages/contentCreationManagement/chat.tsx:193-202 | a failed request turns each placeholder into the AI message ai回复消息失败 with the current time as its id, and leaves every other message and the length unchanged |
| Chat.Receive | src/xhs/pages/contentCreationManagement/chat.tsx:181-192 | when the answer arrives the history is the reply applied to it, the page stops waiting, and the input typed meanwhile is kept |
| Chat.Fail | src/xhs/pages/contentCreationManagement/chat.tsx:193-203 | when the request fails the history is the failure applied to it, the page stops waiting, and the input typed meanwhile is kept |
| Chat.ReadyAfterAnswer | src/xhs/pages/contentCreationManagement/chat.tsx:130-203 | after a send followed by an answer or by a failure, a new non-blank input is sent again: the history gains that message and a fresh placeholder, and a request is made for it |
| Chat.SendThenFail | src/xhs/pages/contentCreationManagement/chat.tsx:130-202 | on a history without placeholders, sending and then failing leaves exactly the old history followed by the user's message and the failure text |
| Chat.SendThenReply | src/xhs/pages/contentCreationManagement/chat.tsx:130-191 | on a history without placeholders, sending and then receiving a reply leaves exactly the old history followed by the user's message and the reply |
| Automation.CreateTask | src/xhs/XHSAutomation.tsx:65-82 | an incomplete form changes nothing; otherwise the new task, running at progress 0 with the chosen name, device and account, is put before all existing tasks, which keep their order, and the form is cleared |
| Automation.SetStatus | src/xhs/XHSAutomation.tsx:85-97 | exactly the tasks with the id get the new status; everything else about every task is unchanged |
| Automation.Stop | src/xhs/XHSAutomation.tsx:85-90 | the list keeps its length and order; every task with the id is stopped and every other task is kept as it was |
| Automation.Resume | src/xhs/XHSAutomation.tsx:92-97 | the list keeps its length and order; every task with the id is running again and every other task is kept as it was |
| Automation.ResumeAfterStop | src/xhs/XHSAutomation.tsx:85-97 | stopping and then resuming a running task gives back the same task list |
| Automation.Delete | src/xhs/XHSAutomation.tsx:99-101 | the result keeps exactly the tasks with another id, in their original order, each as many times as it occurs there |
| Automation.Offered | src/xhs/XHSAutomation.tsx:254-272 | the stop button is offered exactly for running tasks and the resume button exactly for stopped ones |
| Automation.OfferedButtonFlips | src/xhs/XHSAutomation.tsx:254-272 | pressing the offered button leaves the row offering the other button, and no task with another id changes |
| Automation.StatusBadge | src/xhs/XHSAutomation.tsx:110-122 | each of the four known statuses has its own label, and any other status reads 未知 in grey |
| Automation.StopResumeBadges | src/xhs/XHSAutomation.tsx:85-122 | after stop the row's badge reads 已停止, after resume 运行中 |
| Devices.AddDevice | src/devices/DeviceManagement.tsx:60-76 | an incomplete form changes nothing; otherwise one offline device with pending address and system is appended after the existing devices and the form is cleared |
| Devices.Remove | src/devices/DeviceManagement.tsx:79-81 | the result keeps exactly the devices with another id, in order, each as many times as it occurs there |
| Devices.Restart | src/devices/DeviceManagement.tsx:84-90 | the restarted device goes offline at once and every other device is unchanged |
| Devices.RestartDisablesItself | src/devices/DeviceManagement.tsx:84-90 | after a restart the device's restart button is disabled, and restarting it again changes nothing |
| Devices.StatusBadge | src/devices/DeviceManagement.tsx:109-120 | online, offline and busy each have their own label, and any other status reads 未知 |
| Devices.Search | src/devices/DeviceManagement.tsx:123-127 | the listed devices are exactly those whose name or model contains the term ignoring case, or whose address contains it, in order, each as many times as it occurs there |
| Devices.EmptySearchListsAll | src/devices/DeviceManagement.tsx:123-127 | an empty search lists every device |
| CreateTaskModal.Next | src/xhs/components/CreateTaskModal.tsx:49-68 | a failed validation stays put; a valid form moves one step forward, and from the last step submits instead |
| CreateTaskModal.Prev | src/xhs/components/CreateTaskModal.tsx:70-77 | previous moves one step back, and stays on the first step |
| CreateTaskModal.Index | src/xhs/components/CreateTaskModal.tsx:526 | every step has a position in the three-step bar |
| CreateTaskModal.NextPrevInverse | src/xhs/components/CreateTaskModal.tsx:49-77 | previous undoes a successful next, and next undoes previous away from the first step |
| CreateTaskModal.AddTemplate | src/xhs/components/CreateTaskModal.tsx:426-433 | 新增 keeps the existing templates in place and appends exactly one empty template without an image |
| CreateTaskModal.EditContent | src/xhs/components/CreateTaskModal.tsx:395-400 | typing changes the content of that template only; every other template and the length are unchanged |
| CreateTaskModal.SetImage | src/xhs/components/CreateTaskModal.tsx:403-412 | picking an image sets that template's image only |
| CreateTaskModal.AddThenEdit | src/xhs/components/CreateTaskModal.tsx:395-433 | editing a freshly added template leaves every earlier template as it was and gives the new one the typed content |
| OneClickReply.TemplatesOf | src/xhs/components/OneClickReplyTemplate.tsx:48-51 | an array answer is the list itself, a page answer its records, and anything else the empty list |
| OneClickReply.SelectAll | src/xhs/components/OneClickReplyTemplate.tsx:76-82 | on a non-empty list every template's id becomes the selection and is reported to the parent; on an empty list nothing changes and nothing is reported |
| OneClickReply.DeselectAll | src/xhs/components/OneClickReplyTemplate.tsx:84-87 | deselect clears the selection and reports the empty list |
| OneClickReply.CheckTemplate | src/xhs/components/OneClickReplyTemplate.tsx:344-356 | checking appends the id; unchecking removes that id entirely and keeps every other selected id, in order; the new selection is what is reported |
| OneClickReply.Header | src/xhs/components/OneClickReplyTemplate.tsx:444-450 | the header is checked exactly when the selection is as long as a non-empty list, indeterminate exactly when it is partial, and never both |
| OneClickReply.HeaderAfterSelectAll | src/xhs/components/OneClickReplyTemplate.tsx:76-87 | select all on a non-empty list leaves the header checked, and deselect leaves it neither checked nor indeterminate |
| OneClickReply.UncheckUndoesCheck | src/xhs/components/OneClickReplyTemplate.tsx:344-356 | checking a template that was not selected and then unchecking it gives back the selection |
| OneClickReply.CheckAdd | src/xhs/components/OneClickReplyTemplate.tsx:90-99 | adding proceeds exactly when there is an email and the content is not blank; without an email it is refused with the email message |
| OneClickReply.CheckUpdate | src/xhs/components/OneClickReplyTemplate.tsx:144-150 | updating proceeds exactly when a template is being edited, there is an email and the content is not blank; it is skipped silently exactly when the template or the email is missing |
| OneClickReply.BatchDelete | src/xhs/components/OneClickReplyTemplate.tsx:216-226 | batch delete proceeds exactly when there is an email and a selection, and then clears the selection; otherwise it is refused and the selection stays |
| OneClickReply.CheckImage | src/xhs/components/OneClickReplyTemplate.tsx:238-259 | an image is accepted exactly when there is an email, the type starts with image/ and the size is under 5 MiB; a rejection names the failed check |
| ReachOut.FirstText | src/xhs/pages/TemplateManager.tsx:166-168 | a non-empty first text wins, else the second text, else the empty text |
| ReachOut.Format | src/xhs/pages/TemplateManager.tsx:165-172 | a listed comment counts as sent exactly when `is_sent` is 1; its id is the record id when non-empty, else the comment id, else empty; its author the author name when non-empty, else the author, else empty; its content the record's, else empty |
| ReachOut.UnsentComments | src/xhs/pages/TemplateManager.tsx:163-176 | the list is the records whose `is_sent` is not 1, in store order, each formatted, one entry per record |
| ReachOut.FormatThenFilter | src/xhs/pages/TemplateManager.tsx:165-175 | formatting the records and then dropping the sent comments equals dropping the sent records and then formatting |
| ReachOut.CheckComment | src/xhs/pages/TemplateManager.tsx:286-292 | checking appends the id; unchecking removes that id entirely and keeps every other selected id, in order |
| ReachOut.UncheckUndoesCheck | src/xhs/pages/TemplateManager.tsx:286-292 | checking a comment that was not selected and then unchecking it gives back the selection |
| ReachOut.NonEmptyIds | src/xhs/pages/TemplateManager.tsx:79 | the result keeps, in order, exactly the ids that are not empty |
| ReachOut.ToggleAll | src/xhs/pages/TemplateManager.tsx:606-623 | with a selection the button clears it; without one it selects the non-empty ids of the active source in table order, each as often as it occurs there; the rows themselves are untouched |
| ReachOut.ToggleAllTwice | src/xhs/pages/TemplateManager.tsx:606-623 | from an empty selection over rows with ids, pressing the button twice comes back to the empty selection |
| ReachOut.Receive | src/xhs/pages/TemplateManager.tsx:70-107 | a non-empty stored intent array becomes the rows, selects their non-empty comment ids and switches to intents; only when no intents are stored does a non-empty id array become the selection over the comments; in every other case nothing changes |
| ReachOut.ReceivedIntentsAreSelectAll | src/xhs/pages/TemplateManager.tsx:70-86 | the selection made on receiving intents is the one the select-all button would make |
| ReachOut.ReachOutAction | src/xhs/pages/TemplateManager.tsx:294-319 | an empty selection only warns; otherwise the reply pipeline is triggered with exactly the selected ids and the stored target email, empty when none is stored |
| ReachOut.CreateTemplate | src/xhs/pages/TemplateManager.tsx:189-194 | creating reaches the store exactly when there is an email, and is refused otherwise |
| ReachOut.UpdateTemplate | src/xhs/pages/TemplateManager.tsx:222-229 | updating is skipped exactly when no template is being edited, and reaches the store exactly when one is and there is an email |
| ReachOut.DeleteTemplate | src/xhs/pages/TemplateManager.tsx:258-263 | deleting reaches the store exactly when there is an email, and is refused otherwise |
| TopUserMessage.LocalPart | src/xhs/components/ContentTopUserMessage.tsx:153 | the local part is a prefix of the email containing no `@`, and is the whole email when it has no `@` |
| TopUserMessage.DisplayName | src/xhs/components/ContentTopUserMessage.tsx:153 | the greeting is never empty: the profile's display name when it is non-empty, else the email's non-empty local part, else 用户 |
| TopUserMessage.FetchCounters | src/xhs/components/ContentTopUserMessage.tsx:187-214 | a failed fetch changes nothing; the running counter counts the running runs; administrators and users without an email count every run as a task; other users count the runs whose configuration names their email, and when some run has no configuration only the running counter changes |
| TopUserMessage.RunningAndFinishedFit | src/xhs/components/ContentTopUserMessage.tsx:187-214 | for a full count, running and finished runs together never exceed the tasks counted |
| Register.ValidateEmail | src/login/Register.tsx:87-114 | an empty email is asked for; a non-empty one passes exactly when the lookup finds no profile with it, is refused as taken when one is found, and as unverifiable when the lookup fails |
| Register.EmailAcceptedIffUnused | src/login/Register.tsx:87-114 | against the stored profiles, a non-empty email passes exactly when no profile has it |
| Register.ValidateCode | src/login/Register.tsx:117-144 | an empty code is asked for; a non-empty one passes exactly when the lookup of available rows with that text finds one, is refused as unknown or used when it finds none, and as unverifiable when the lookup fails |
| Register.CodeAcceptedIffAvailable | src/login/Register.tsx:117-144 | against the code table, a code passes exactly when exactly one available row carries it; when every row with that text is sent or used it never passes |
| Register.CodeLifecycle | src/login/Register.tsx:117-144 | a freshly generated code admits one registration; once sent in a batch, or once used by a registration, it admits none |
| Register.ValidatePassword | src/login/Register.tsx:233-238 | a password is refused exactly when it is non-empty and shorter than six characters |
| Register.ValidateConfirm | src/login/Register.tsx:240-247 | the confirmation is refused exactly when it is non-empty and differs from the password |
| Register.IndustryNameFor | src/login/Register.tsx:163-168 | the stored industry name belongs to an industry whose id reads as the picked value, is the first industry's name when that one matches, and is empty when none matches |
| Register.PickedIndustryName | src/login/Register.tsx:163-168 | with distinct ids, picking an industry stores its own name |
| Register.ProfileWriteFor | src/login/Register.tsx:165-204 | an existing profile is updated with exactly the email, industry and update time; otherwise a row with exactly the user id, email, industry and both timestamps is inserted |
| Register.OnFinish | src/login/Register.tsx:146-230 | a sign-up error or a sign-up without a user writes nothing; otherwise the profile is written and every row with the entered code is marked used by that email |
| Register.CodeSingleUse | src/login/Register.tsx:146-230 | after a successful registration the code used cannot admit another registration |
| Login.ErrorMessage | src/login/Login.tsx:45-77 | a known error code shows its own message; an unknown code shows the error's message or the generic retry text; no code shows the error's message or the default text |
| Login.HandleSubmit | src/login/Login.tsx:33-81 | the page navigates to the dashboard exactly when sign-in succeeds, and then shows no error; a failure shows its message and stays; loading always ends |
| Login.FailureAlwaysExplained | src/login/Login.tsx:45-77 | a failed sign-in always shows some text, and different known codes show different texts |
| Signup.HandleSubmit | src/pages/auth/Signup.tsx:15-40 | a password under six characters is refused first, then a differing confirmation, each without creating the account; a failed creation shows its message or a default; a successful one navigates without an error |
| Signup.CalledIffValid | src/pages/auth/Signup.tsx:15-40 | the account is created exactly when both checks pass, and the page navigates exactly when it is also created without error, which is exactly when no error is shown |
| AuthService.WithEmail | src/services/authService.ts:24-28 | the rows returned are exactly the table's rows with that email |
| AuthService.Single | src/services/authService.ts:24-31 | `.single()` yields a row exactly when one row matches, and then that row |
| AuthService.SessionUser | src/services/authService.ts:48-55 | the stored user holds exactly the id, email, role and active flag of the row |
| AuthService.Login | src/services/authService.ts:21-60 | no single row for the email, or a wrong password, is the credentials error; an inactive account is refused before its password is compared; success stores and returns exactly the session user; a failure leaves the store alone |
| AuthService.LoginSucceedsIff | src/services/authService.ts:21-60 | sign-in succeeds exactly for the one active row with that email and password |
| AuthService.Signup | src/services/authService.ts:63-108 | an email held by exactly one row is refused without an insert; otherwise the row is inserted with the given or default role, and success stores and returns the new user while failure shows its message or a default and leaves the store alone |
| AuthService.Logout | src/services/authService.ts:111-113 | afterwards no user is stored |
| AuthService.CurrentUser | src/services/authService.ts:116-126 | a user is read back exactly when a stored text parses, and it is the parsed value |
| AuthService.SignInThenOut | src/services/authService.ts:21-136 | after a successful sign-in the user is authenticated, reads back as the user returned, and is an administrator exactly when the row's role is `admin`; after logout nobody is authenticated or an administrator |
| AuthService.AdminIsCaseSensitive | src/services/authService.ts:133-136 | a signed-in user is an administrator exactly when the stored role is `admin` letter for letter, so `Admin` is not |
| UserStore.Field | src/store/userStore.ts:74 | a field read through optional chaining is present exactly when the object is and holds the key |
| UserStore.RoleOf | src/store/userStore.ts:74 | the role chosen from profile, metadata and the `user` default is always truthy |
| UserStore.DetermineUserRole | src/store/userStore.ts:73-87 | the user is an administrator exactly when the first truthy role among profile and metadata is a string reading `admin` in any letter case; with neither role nobody is |
| UserStore.StoreAdminIncludesServiceAdmin | src/store/userStore.ts:73-87 | whoever the profile service calls an administrator the store does too, while a role `ADMIN` counts only in the store |
| UserStore.ThrownMessage | src/store/userStore.ts:166-176 | an error object's own message is shown, and anything else thrown shows 未知错误 |
| UserStore.InitializeStart | src/store/userStore.ts:134 | initialisation first marks the store loading and clears the error, touching nothing else |
| UserStore.Initialize | src/store/userStore.ts:120-177 | a store already loading or initialised is left alone; otherwise it ends initialised and not loading; without a session it records 未登录; with one it keeps the session's email when present, and a profile read fills the profile and the admin flag from the role rule |
| UserStore.InitializeOnce | src/store/userStore.ts:120-134 | a call made while another is in flight, or after one finished, changes nothing whatever the session and the store then say |
| UserStore.Reset | src/store/userStore.ts:186-189 | after a reset there is no profile, email or error, nobody is an administrator, and the store is neither loading nor initialised |
| UserStore.ResetAllowsInitialize | src/store/userStore.ts:120-189 | after a reset the next sign-in initialises again and takes the profile then read |
| UserStore.Partialize | src/store/userStore.ts:194-199 | exactly the profile, the admin flag, the email and the initialised flag are persisted |
| UserStore.Restore | src/store/userStore.ts:194-199 | restoring lays back exactly the persisted fields and keeps the loading flag and the error |
| UserStore.ReloadKeepsStoredProfile | src/store/userStore.ts:120-199 | a reload restores the persisted fields only, and a store that had finished initialising is not initialised again, so it keeps the stored profile |
| UserStore.OldField | src/store/userStore.ts:210-218 | a field of the old user is present exactly when the old user is an object holding it |
| UserStore.Migrate | src/store/userStore.ts:202-237 | any version but 0 passes through unchanged; from version 0 a truthy old user becomes a profile holding its email, its name as display name and its role, each exactly when the old user had it, an admin flag from its role in any letter case, its email, and a state to initialise again; a role that is neither a string nor null raises; no old user gives an empty state |
| UserStore.MigratedAdminAgrees | src/store/userStore.ts:202-237 | an old user with role `admin` migrates to a profile that the profile-based check also calls an administrator |
| UserStore.OnAuthEvent | src/store/userStore.ts:245-269 | a sign-in or initial session with a user initialises the store, a sign-out resets it, and any other event, or no user, leaves it alone |
| UserStore.SignOutThenIn | src/store/userStore.ts:245-269 | signing out and in again reloads the profile and the admin flag, whatever the store held before |
| DashBoardStore.InitialWellFormed | src/store/dashBoardStore.ts:77-108 | the initial state's step agrees with the form's copy and its template lists are lists |
| DashBoardStore.SetCurrentStep | src/store/dashBoardStore.ts:111-121 | the step and the form's copy of it change together; every other form key is kept, and a well-formed state stays well formed |
| DashBoardStore.UpdateFormData | src/store/dashBoardStore.ts:123-132 | the given keys take the given values and every other key keeps its value; the step is untouched |
| DashBoardStore.UpdateField | src/store/dashBoardStore.ts:134-143 | a single-key update sets exactly that key |
| DashBoardStore.UpdateKeepsWellFormed | src/store/dashBoardStore.ts:123-132 | an update that keeps the template lists lists keeps the state well formed |
| DashBoardStore.Fields | src/store/dashBoardStore.ts:149 | an object template spreads to its own fields |
| DashBoardStore.UpdateCommentTemplate | src/store/dashBoardStore.ts:145-158 | the template at the index takes the given fields over its own and every other template and form key is untouched; an index one past the end appends a template of just those fields; one further out writes there and leaves null holes between; a negative index changes no template |
| DashBoardStore.AddCommentTemplate | src/store/dashBoardStore.ts:160-172 | the new template goes at the end and a well-formed state stays well formed |
| DashBoardStore.DeleteCommentTemplate | src/store/dashBoardStore.ts:174-186 | no remaining template has the id, every template without it remains, in order and as often as before; other form keys and well-formedness are kept |
| DashBoardStore.DeleteUndoesAdd | src/store/dashBoardStore.ts:160-186 | deleting the id of a template just added, when no other had it, gives the list back |
| DashBoardStore.ResetForm | src/store/dashBoardStore.ts:188-198 | reset returns the first step and the default form, a well-formed state |
| DashBoardStore.SaveProgress | src/store/dashBoardStore.ts:200-227 | the saved text holds exactly the step, the form and the save time |
| DashBoardStore.Member | src/store/dashBoardStore.ts:237-238 | a member of a parsed value is present exactly when the value is an object holding the key |
| DashBoardStore.LoadProgress | src/store/dashBoardStore.ts:229-268 | the state is replaced exactly when some text is stored, parses and is not `null`: by the saved step when it is truthy, else the first step, and the default form with every saved field laid over it; the answer is true exactly when the state is replaced and the logging of the loaded templates does not throw, which it does on a `null` template or a non-array with a positive length |
| DashBoardStore.LoadAfterSave | src/store/dashBoardStore.ts:200-268 | loading what was saved from a well-formed state restores that state exactly, and answers true exactly when no comment template is `null` |
| DashBoardStore.HoleFailsLoad | src/store/dashBoardStore.ts:145-266 | an update past the end of the templates, saved and loaded again, restores the state but answers false |
| DashBoardStore.ClearSavedProgress | src/store/dashBoardStore.ts:271-292 | after clearing, nothing is saved and loading changes nothing |
| DashEchartStore.Bump | src/store/dashEchartStore.ts:64-69 | counting one more task on a day raises that day's bar by one, keeps the bars in day order and touches no other day |
| DashEchartStore.BumpBefore | src/store/dashEchartStore.ts:64-77 | a day before every bar becomes a new first bar of one |
| DashEchartStore.BumpHere | src/store/dashEchartStore.ts:64-77 | the first bar's own day raises that bar |
| DashEchartStore.BumpAfter | src/store/dashEchartStore.ts:64-77 | a later day keeps the first bar in front of the bumped rest |
| DashEchartStore.ChartOf | src/store/dashEchartStore.ts:64-77 | the bars are in day order, sum to the number of tasks, and each day's bar counts exactly the tasks of that day |
| DashEchartStore.GetGainQuantity | src/store/dashEchartStore.ts:38-85 | the weekly value counts the tasks of the last week, the daily value those of today, and the chart has one bar per day of the week's tasks, in day order, summing to the weekly value |
| DashEchartStore.DailyWithinWeekly | src/store/dashEchartStore.ts:38-85 | today's count never exceeds the week's |
| DashEchartStore.BarsArePositive | src/store/dashEchartStore.ts:64-77 | no bar is empty |
| DashEchartStore.BumpKeepsPositive | src/store/dashEchartStore.ts:64-69 | bumping keeps every bar at one or more |
| DashEchartStore.SetGainQuantity | src/store/dashEchartStore.ts:30-32 | the task list is replaced and the day count kept |
| DashEchartStore.SetGainQuantityDay | src/store/dashEchartStore.ts:34-36 | the day count is replaced and the task list kept |
| TaskQueue.MakeConfig | src/utils/taskQueue.ts:18-49 | each option given overrides its default of 3 tasks per batch, 1000 ms delay and 500 ms between batches |
| TaskQueue.AddTask | src/utils/taskQueue.ts:54-83 | an id already in flight is refused and nothing changes; otherwise it is marked in flight and queued at the end |
| TaskQueue.AddKeepsInFlight | src/utils/taskQueue.ts:54-83 | adding never takes an id out of flight, and an id in flight cannot be added again |
| TaskQueue.SuccessOf | src/utils/taskQueue.ts:171-172 | the first result with the task's id decides its success, whatever later ones say; a task with no result fails |
| TaskQueue.CompleteBatch | src/utils/taskQueue.ts:170-173 | each task of a batch gets one completion, in batch order, with the success its results report |
| TaskQueue.CompletionsFollowQueue | src/utils/taskQueue.ts:133-173 | every task whose batch ran gets exactly one completion, in queue order; the tasks that ran are a prefix of the queue, all of it when no batch is rejected and a strict prefix when one is |
| TaskQueue.Drain | src/utils/taskQueue.ts:109-217 | the whole queue is taken and cut into consecutive batches of the batch size, the least number that holds it; the tasks of the batches before the first rejected one get one completion each, in queue order, and only their ids leave flight; with no rejection that is every task; afterwards nothing is queued and nothing is processing |
| TaskQueue.IdsAppend | src/utils/taskQueue.ts:54-83 | the ids of two lists together are the ids of each |
| TaskQueue.SuccessCounts | src/utils/taskQueue.ts:183-184 | successes and failures together are all the results |
| TaskQueue.BatchSummary | src/utils/taskQueue.ts:182-197 | with no failure the message counts the successes only; otherwise it counts both |
| TaskQueue.Cleanup | src/utils/taskQueue.ts:221-230 | afterwards nothing is queued, no id is in flight and the queue is not processing, so any id may be added again |
| Profiles.Get | src/management/userManagement/UserManagement.tsx:295-305 | a profile column is present exactly when the profile holds it, and is then its value |
| Profiles.TextOr | src/management/userManagement/UserManagement.tsx:295-305 | a text column reads as its own non-empty text, and anything else reads as the default |
| Profiles.ListOr | src/management/userManagement/UserManagement.tsx:301-303 | a list column reads as its own items when it is a list, and as the empty list otherwise |
| Profiles.ActiveOr | src/management/userManagement/UserManagement.tsx:300 | a missing `is_active` reads as active, and a present one as itself |
| UserManagement.ToUserRow | src/management/userManagement/UserManagement.tsx:178-188 | a row keeps its profile and user id; a missing email and a missing update time read 从未登录, a missing creation time reads empty, and a missing active flag reads active |
| UserManagement.RowsAlwaysShowEmailAndRole | src/management/userManagement/UserManagement.tsx:178-188 | a row never shows an empty email or role, and reads 从未登录 as last sign-in whenever the profile has no update time |
| UserManagement.SearchUsers | src/management/userManagement/UserManagement.tsx:79-92 | with users loaded the view is page 1 of exactly the users whose email, name, department or last sign-in contains the term ignoring case, in list order, with the least page count that holds them; with none loaded nothing changes |
| UserManagement.EmptySearchShowsAll | src/management/userManagement/UserManagement.tsx:79-92 | an empty search box shows every user |
| UserManagement.SearchFindsEmail | src/management/userManagement/UserManagement.tsx:79-92 | searching for a user's email finds that user |
| UserManagement.EditForm | src/management/userManagement/UserManagement.tsx:290-310 | the form starts from the row's display name and the profile's own texts, active flag and device, server and material lists, with empty text, empty lists, role `user` and industry 自定义 where the profile has none |
| UserManagement.ChooseIndustry | src/management/userManagement/UserManagement.tsx:320-346 | picking records the industry name and changes nothing else, except that a known industry other than 自定义 also replaces the material list with that of the first listed industry of the name |
| UserManagement.ChooseFirstIndustry | src/management/userManagement/UserManagement.tsx:328-334 | when several industries share the name, the first listed one supplies the materials |
| UserManagement.AddEntry | src/management/userManagement/UserManagement.tsx:350-392 | blank input changes nothing; otherwise one entry with the new id and the input as its name is appended after the existing ones and the input is cleared |
| UserManagement.RemoveEntry | src/management/userManagement/UserManagement.tsx:368-400 | every entry with the id goes, and every other entry stays in order, each as many times as it occurs there |
| UserManagement.AddThenRemoveEntry | src/management/userManagement/UserManagement.tsx:350-400 | removing an entry just added under a new id gives back the list |
| UserManagement.AddMaterial | src/management/userManagement/UserManagement.tsx:402-415 | blank input changes nothing; otherwise the id ends up listed, appended only when it was not there, and the input is cleared |
| UserManagement.AddMaterialKeepsDistinct | src/management/userManagement/UserManagement.tsx:402-415 | adding materials by hand never creates a duplicate |
| UserManagement.AddAllMaterials | src/management/userManagement/UserManagement.tsx:417-429 | without datasets nothing changes; otherwise the list holds exactly the old materials and every dataset id, each once, in first-seen order |
| UserManagement.AddAllKeepsList | src/management/userManagement/UserManagement.tsx:417-429 | a duplicate-free list stays in front, unchanged, of the ids added |
| UserManagement.RemoveMaterial | src/management/userManagement/UserManagement.tsx:445-450 | every copy of the id goes and every other material stays in order |
| UserManagement.AddThenRemoveMaterial | src/management/userManagement/UserManagement.tsx:402-450 | adding an id by hand and removing it again restores a list that did not hold it |
| UserManagement.SavedIsActive | src/management/userManagement/UserManagement.tsx:469 | the saved user is active exactly when the form's flag is `true` or the text "true" |
| UserManagement.SaveData | src/management/userManagement/UserManagement.tsx:460-474 | the update holds exactly the twelve profile columns: the display name, the texts, the device, server and material lists, the role and the industry as in the form, and the active flag as a boolean |
| UserManagement.EditThenSaveKeepsProfile | src/management/userManagement/UserManagement.tsx:290-474 | opening a user's form and saving it untouched writes back the profile's own values for every column but the display name |
| UserManagement.SavedTextsKept | src/management/userManagement/UserManagement.tsx:295-474 | the five text columns come back as the profile held them |
| UserManagement.SavedOthersKept | src/management/userManagement/UserManagement.tsx:300-474 | the active flag, the three lists, the role and the industry come back as the profile held them |
| ManagementPage.MessageOr | src/management/ManagementPage.tsx:90 | an error's own non-empty message is shown, else the fallback |
| ManagementPage.FetchUsers | src/management/ManagementPage.tsx:45-95 | a failed query shows no users and its message or the fallback; an empty result shows no users and 暂无用户数据; otherwise exactly one row per profile, in some order, and no error |
| ManagementPage.LoadedUsersAreTheProfiles | src/management/ManagementPage.tsx:45-95 | every loaded user comes from a profile and every profile gives a loaded user |
| ManagementPage.FetchIndustries | src/management/ManagementPage.tsx:98-121 | a failed query shows no industries and its message or the fallback; an empty one shows 暂无行业数据; otherwise exactly the industries, reordered, and no error |
| ManagementPage.ErrorIffEmpty | src/management/ManagementPage.tsx:98-121 | the industry loader shows an error exactly when it shows nothing |
| UserProfileService.UpdateCache | src/management/userManagement/userProfileService.ts:27-30 | the cache remembers the profile or its absence, stamped now, and keeps the user |
| UserProfileService.FreshCacheValidForAMinute | src/management/userManagement/userProfileService.ts:12-30 | a profile cached now is valid for its own user, or when no user is named, exactly during the next minute |
| UserProfileService.GetUserProfile | src/management/userManagement/userProfileService.ts:35-62 | a valid cache answers without reading; otherwise a row is cached and returned, a missing row (PGRST116) is cached as none and returns none, and any other error is raised leaving the cache alone |
| UserProfileService.SecondReadComesFromCache | src/management/userManagement/userProfileService.ts:12-62 | within the minute a second request for the same user gets the first answer whatever the store now holds |
| UserProfileService.NotFoundIsReadAgain | src/management/userManagement/userProfileService.ts:12-62 | a missing profile is not remembered as valid, so the next request takes what the store then holds |
| UserProfileService.UpdateRequest | src/management/userManagement/userProfileService.ts:86-116 | the write is skipped exactly when the cache is valid and holds every updated value already; otherwise the payload is exactly the updates plus the update time |
| UserProfileService.UpdateUserProfile | src/management/userManagement/userProfileService.ts:86-126 | a skipped write returns the cached profile; a sent one returns and caches the stored row, or raises the store's error leaving the cache alone |
| UserProfileService.RepeatedUpdateIsSkipped | src/management/userManagement/userProfileService.ts:86-126 | saving again within the minute with values the store already returned sends nothing |
| UserProfileService.EmptyUpdateSkipped | src/management/userManagement/userProfileService.ts:86-104 | an empty update never writes while the cache is valid |
| UserProfileService.ClearUserCache | src/management/userManagement/userProfileService.ts:353-357 | after clearing there is no user and no profile, and no cache is valid at any time for any user |
| UserProfileService.UserInfoFor | src/management/userManagement/userProfileService.ts:199-258 | the answer comes from the cache exactly when a cached profile is younger than a minute, and is then that profile; otherwise a found row is the profile and is cached at this time, no row gives no profile and no admin, and a failed read is reported; the user is an administrator exactly when the profile's role is `admin` |
| UserProfileService.SecondAskIsCached | src/management/userManagement/userProfileService.ts:199-258 | asking again within a minute of a read that found the row answers from the cache with that row and the same admin flag |
| IndustryManagement.SearchIndustries | src/management/industry/IndustryManagement.tsx:65-76 | with industries loaded the view is page 1 of exactly the industries whose name or app id contains the term ignoring case, in list order, with the least page count that holds them; with none loaded nothing changes |
| IndustryManagement.SearchFindsName | src/management/industry/IndustryManagement.tsx:65-76 | searching for an industry's own name finds it |
| IndustryManagement.EditForm | src/management/industry/IndustryManagement.tsx:210-221 | the edit form copies the industry's name and materials, with an empty app id for a missing one |
| IndustryManagement.CheckSave | src/management/industry/IndustryManagement.tsx:263-269 | saving is refused with 行业名称不能为空 exactly when the name is blank |
| IndustryManagement.EditThenSaveKeepsIndustry | src/management/industry/IndustryManagement.tsx:210-300 | editing an industry and saving it untouched sends back its own name, materials and app id |
| IndustryManagement.AddMaterialToForm | src/management/industry/IndustryManagement.tsx:240-253 | blank input changes nothing; otherwise the id is appended unless already listed, and the input is cleared |
| IndustryManagement.AddMaterialKeepsDistinct | src/management/industry/IndustryManagement.tsx:240-253 | materials added by hand never make a duplicate-free list hold a value twice |
| IndustryManagement.RemoveMaterialFromForm | src/management/industry/IndustryManagement.tsx:255-260 | every copy of the id goes, every other material stays in order, and name and app id are kept |
| IndustryManagement.ToggleDataset | src/management/industry/IndustryManagement.tsx:603-620 | after a click the dataset is selected exactly when it was not; a selected one is removed and an unselected one appended |
| IndustryManagement.ToggleTwiceRestores | src/management/industry/IndustryManagement.tsx:603-620 | two clicks on an unselected dataset leave the list as it was |
| IndustryManagement.ToggleKeepsDistinct | src/management/industry/IndustryManagement.tsx:603-620 | toggling keeps a duplicate-free list duplicate-free |
| IndustryManagement.DeleteFromLists | src/management/industry/IndustryManagement.tsx:346-360 | deleting removes exactly the rows with that id from both the full and the filtered list, keeping the rest in order |
| IndustryManagement.ReplaceUpdated | src/management/industry/IndustryManagement.tsx:302-306 | after an update every row with its id is the updated industry and every other row is unchanged in place |
| IndustryManagement.ReplaceUpdatedTwice | src/management/industry/IndustryManagement.tsx:302-306 | updating the same industry twice keeps only the second update |
| IndustryService.GetIndustry | src/management/industry/industryService.ts:30-74 | a missing row (PGRST116) answers null, a found row answers itself, and any other error is raised with its message |
| IndustryService.AddMaterial | src/management/industry/industryService.ts:139-169 | a missing industry is an error naming its id; an id already listed returns the industry without writing; otherwise the id is appended and the row written |
| IndustryService.RemoveMaterial | src/management/industry/industryService.ts:172-197 | a missing industry is an error; otherwise the row is written with every copy of the id dropped and every other material kept in order, and nothing else changes |
| IndustryService.IndustryMaterials | src/management/industry/industryService.ts:256-268 | the answer is the industry's material list exactly when it is found, and the missing-industry error when it is not |
| IndustryService.IsMaterialIn | src/management/industry/industryService.ts:271-282 | the answer is true exactly when the industry is found and lists the material; a missing industry or a failed read answers false |
| IndustryService.AddThenMember | src/management/industry/industryService.ts:139-282 | after adding, the material is in the industry, and adding it again writes nothing |
| IndustryService.RemoveUndoesAdd | src/management/industry/industryService.ts:139-197 | removing a material just added to an industry that lacked it writes the industry back as it was |
| IndustryService.CreateIndustry | src/management/industry/industryService.ts:76-101 | the new industry keeps its name, has an empty material list when none is given, and stores a missing or empty app id as null |
| InvitationCodePage.StatusBadge | src/management/invitationCode/invitationCode.tsx:155-172 | status 1 reads 可用 in green, status 2 已发送 in blue, and any other status 已使用 |
| InvitationCodePage.SelectableIffAvailableBadge | src/management/invitationCode/invitationCode.tsx:155-226 | a row can be selected exactly when its badge reads 可用 |
| InvitationCodePage.Refetched | src/management/invitationCode/invitationCode.tsx:19-29 | after a change the list is fetched again under the same query, newest first, with every row shown when there is no query; the selection is kept |
| InvitationCodePage.GenerateAction | src/management/invitationCode/invitationCode.tsx:32-43 | without a signed-in user the error is shown and nothing changes; otherwise one available code by that user is added and success shown |
| InvitationCodePage.DeleteOne | src/management/invitationCode/invitationCode.tsx:46-57 | a failure shows its message and changes nothing; a success removes exactly that row and keeps the selection |
| InvitationCodePage.BatchDelete | src/management/invitationCode/invitationCode.tsx:60-76 | with nothing selected only a warning; a failure shows its message and changes nothing; otherwise the selected rows are deleted, their number reported and the selection cleared |
| InvitationCodePage.BatchDeleteRemovesExactlySelected | src/management/invitationCode/invitationCode.tsx:60-76 | a successful batch delete leaves no selected row and every unselected row |
| InvitationCodePage.BatchSendAction | src/management/invitationCode/invitationCode.tsx:79-95 | with nothing selected only a warning; a failure shows its message and changes nothing; otherwise the selected available rows are marked sent, their number reported and the selection cleared |
| InvitationCodePage.SentRowsLeaveTheSelection | src/management/invitationCode/invitationCode.tsx:79-95 | after a successful batch send no row with a selected id can be selected again, and every other row is exactly as before |
| InvitationCodePage.SelectedCodes | src/management/invitationCode/invitationCode.tsx:117-119 | the copied codes are exactly the codes of the shown rows whose id is selected |
| InvitationCodePage.SelectedCodesInTableOrder | src/management/invitationCode/invitationCode.tsx:117-119 | the copied codes follow the table order: a row added at the end adds its code at the end when it is selected |
| InvitationCodePage.BatchCopy | src/management/invitationCode/invitationCode.tsx:111-130 | with nothing selected only a warning and no copy; otherwise the selected codes joined by line breaks go to the clipboard, and the notice says whether it accepted them |
| InvitationCodePage.CopiedCodesSplitBack | src/management/invitationCode/invitationCode.tsx:111-130 | codes without line breaks are given back by splitting the clipboard text on line breaks |
| InvitationCodeService.Generate | src/management/invitationCode/invitationCodeService.ts:47-82 | without a signed-in user the call fails with 用户未登录; otherwise exactly one available row created by that user is added |
| InvitationCodeService.Delete | src/management/invitationCode/invitationCodeService.ts:87-122 | exactly the rows with a given id go, and the rest stay in order |
| InvitationCodeService.DeleteNothing | src/management/invitationCode/invitationCodeService.ts:107-122 | deleting no ids leaves the table as it is |
| InvitationCodeService.BatchSend | src/management/invitationCode/invitationCodeService.ts:128-144 | exactly the available rows with a given id become sent; every other row and column is unchanged |
| InvitationCodeService.BatchSendIdempotent | src/management/invitationCode/invitationCodeService.ts:128-144 | sending twice is the same as sending once |
| InvitationCodeService.Listing | src/management/invitationCode/invitationCodeService.ts:19-42 | rows come newest first; without a query every row is listed, and with one exactly the matching rows |
| InvitationCodeService.QueryNarrowsListing | src/management/invitationCode/invitationCodeService.ts:19-42 | a query only narrows the listing: each row it shows appears at least as often without the query |
| InvitationCodeService.MaybeSingle | src/login/Register.tsx:122-128 | no row answers not found, exactly one row answers that row, and several answer an error |
| InvitationCodeService.AvailableWithText | src/login/Register.tsx:122-128 | the rows found are exactly the available rows with that code text |
| InvitationCodeService.Consume | src/login/Register.tsx:207-215 | every row with the code text becomes used, stamped with the time and the registering email, and every other row is unchanged |
| InvitationCodeService.ConsumedNotAvailable | src/login/Register.tsx:207-215 | after registration no row with that code text is available |
| InvitationCodeService.SentNotAvailable | src/management/invitationCode/invitationCodeService.ts:128-144 | after a batch send the row sent is no longer available under its code text |

## Left out

- webhook_server.py: the deployment hook. On a POST it runs a git fetch and a hard reset to origin/main and replies with a fixed text. That is process and HTTP I/O with no logic to model.
- Network calls are not modelled: Supabase queries, Airflow DAG triggers, `fetch`, the COS SDK and the Tencent Cloud HTTP call. Their outcomes are inputs, either as a found/not-found/failed value or as an error message.
- SHA-256, HMAC-SHA256, `encodeURIComponent` and the form encoding of `URLSearchParams` are function parameters, so their outputs are not computed.
- `JSON.parse` is an input that yields a value or nothing. `JSON.stringify` is modelled only through the property order of `JsObjects`.
- Timers and intervals are left out:
  - the three-second return to online after a device restart, and the stale list it captures;
  - the thirty-second status polling;
  - the proxy cache's cleanup interval;
  - the task queue's collection delay and the pause between batches, so that a drain runs its batches back to back.
- Floating point and locale formatting are left out: `toFixed`, `toLocaleString`, date strings. Dates are day or millisecond numbers.
- ManagementPage.FetchUsers and ManagementPage.FetchIndustries take the `localeCompare('zh-CN')` and sign-in-time orderings as a parameter. Only that the ordering permutes its input is assumed. The re-sort of the industry table after an update is not modelled.
- DataFilter's keyword filter treats a keyword as a literal substring. Regular-expression metacharacters in a keyword are not modelled.
- Lower-casing (`toLowerCase`) is modelled for ASCII letters only.
- Random invitation-code text, generated ids and timestamps are parameters.
- Presentational components (layouts, icons, charts' drawing, modals' markup) are not modelled.
- The values of the airflow `ConfigKey` enum are not part of this model. Configuration key names are parameters.
- The fixed-state resets `handleClearAllMaterials` and `handleCancelEdit` of the user editor are not modelled.
- IndustryService's pass-through reads and writes are store calls with no logic of their own, so their outcomes are inputs. They are `getAllIndustries`, `updateIndustry`, `deleteIndustry`, `setIndustryAppId`, `getUserIndustry` and `setUserIndustry`.
- UserProfileService's store pass-throughs are left out for the same reason. They are `createUserProfile`, `updateUserMaterialList`, `getOrCreateUserProfile` and `getAllUserProfiles`. The `auth.getUser` branch of `getUserInfoWithProfile` is left out too.
- LegacyWizard.FormatNumber: a count of ten thousand or more is shown as ten-thousands with one decimal place, and a smaller count in the locale's format. Both formatters are parameters, because they are floating point and locale dependent. The contract states only the "-" for zero and the 万 suffix.
- Register.ValidatePassword: the six-character minimum counts characters, while JavaScript's `length` counts UTF-16 code units. A character outside the Basic Multilingual Plane therefore counts once here and twice in the source.
- Signup.HandleSubmit: the six-character minimum counts characters, not UTF-16 code units, as for the register page.
- DataFilter.ApplyFilters: the minimum comment length counts characters, not UTF-16 code units, as for the register page.
- InvitationCodeService.Listing: the search is a case-insensitive substring match. The store's `ilike` pattern also treats `%` and `_` in the query as wildcards; that is not modelled.
- UserProfileService.UpdateRequest: a key counts as unchanged when the cached value equals the new one as a JSON value. The source compares the `JSON.stringify` texts, which also differ when two equal objects list their keys in different orders.
- Drafts.PathsOf: when several uploads fail, the error returned is that of the first failing entry in list order. `Promise.all` rejects with whichever fails first in time. The save replaces the message with its fixed retry text either way.
- DashBoardStore.DeleteCommentTemplate: a `null` template is kept unless it has the id, which it cannot. The model's `null` stands for three different things in the source. A true hole of a sparse array, which `filter` skips and so drops. An `undefined` left by a later `[...]` copy, on which `t.id` throws. A `null` loaded from a save, on which `t.id` also throws.
- DashBoardStore.LoadProgress: a saved `formData` that is a string or an array is taken to add no fields. Spreading it in the source adds its indices as keys. A non-array template value whose `length` is a numeric string or an array is taken as not positive; JavaScript first converts such a `length` to a number.
- TaskQueue.Drain: requires a positive batch size. `MakeConfig` accepts any size, and with a size of zero or less the source's batch loop at src/utils/taskQueue.ts:133 never ends. Both queue factories in that file use a size of 3.
- OneClickReply.BatchDelete: only the path where the store call succeeds is modelled. A failed delete, which keeps the selection and shows an error, is left out.

## Findings

| source | as written | input that shows it | evidently intended | confidence | as-written member | corrected member |
|---|---|---|---|---|---|---|
| src/xhs/pages/contentCreationManagement/constants.ts:7 | the upload check accepts only image/jpg and image/png | a JPEG photo, which browsers report as image/jpeg, is rejected as an unsupported type | JPEG, PNG and GIF are accepted. The error text at src/xhs/pages/contentCreationManagement/components/AddNewTaskContent.tsx:61 promises this, and the older wizard's list at src/xhs/pages/contentCreationManagement.tsx:41 has it | not executed | NoteContent.JpegRejectedAsWritten | NoteContent.FixedAcceptsAdvertisedTypes |
