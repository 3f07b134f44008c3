# Apple Music bot core, modelled in Dafny

This project models the decision and packaging logic of a Telegram bot. The bot
downloads Apple Music content and delivers it as single files, zip archives or Rclone
links. Each Python file of the core has its own module:

| module | Python file | what it models |
|---|---|---|
| `Utils` | `bot/helpers/utils.py` | The archiver that splits a folder into parts no larger than `MAX_SIZE`, the single-archive variant and the mode switch between them. The retrying download in `download_file`. Placeholder replacement in `format_string`. The Rclone and index links from `create_link`. What `cleanup` removes. The progress bar and the completion percentage. |
| `Uploader` | `bot/helpers/uploader.py` | The zip path of `create_simple_zip`. The relative path and links of `rclone_upload`. The upload decision trees of tracks, music videos, albums, artists and playlists, each as the ordered list of actions it takes. |
| `AppleUtils` | `bot/providers/apple_utils.py` | The downloader command, the loop that drains its output and reads progress from it, and the result record. The sanitised, collision-free name of the zip `create_apple_zip` builds. |
| `Message` | `bot/helpers/message.py` | The anti-spam registry `current_user`, the authorisation check `check_user`, the user record built by `fetch_user_details`, and the retry policy of `send_message` and `edit_message`. |
| `Settings` | `bot/settings.py` | Reading values from the settings database. The Base64 encoding of stored credentials. The availability of rclone, the upload mode, the link options, the anti-spam mode, the bot language, and the data a Tidal login starts from. The `BotSettings` object's fields. |
| `AppleMetadata` | `bot/providers/apple_metadata.py` | Routing by file extension, the fallback record, the tag defaults, and where an embedded cover is written. |

Helper modules restate the Python library behaviour the core relies on:

- `Common`: `Option` and `Result`, and Python truthiness.
- `Strings`: a subset of `str`.
- `Paths`: `posixpath` and `pathlib`.
- `Encoding`: UTF-8; Base64 as defined in section 4 of RFC 4648, with CPython's lenient decoder; and the percent-encoding of section 2.1 of RFC 3986 done by `urllib.parse.quote`.
- `Archive`: walked folders, archives, and a disk changed by a trace of create, write and remove operations.

The outside world is a set of inputs:

- **Network, Telegram and subprocesses.** An HTTP attempt, a subprocess's exit status and output, and the FloodWait waits Telegram answers are given as values. Each Telegram, rclone or downloader call is described as a value or as an action in a trace.
- **The disk.** It is a set of paths. A walked folder is a sequence of `(relative path, size)` entries in walk order.
- **The clock.** It is a parameter, `now`.

`MAX_SIZE` is the float `1.9 * 2**30`. For integer sizes it is the threshold 2040109465: `s > MAX_SIZE` holds exactly when `s > 2040109465`. Python's float divisions in the progress arithmetic are modelled as exact rational arithmetic, floored.

Where the code and its description disagree, the model follows the code:

- `create_link` raises ValueError when the path is not below the base; the model returns an error for it.
- `cleanup` of a list of zip parts that contains the literal element "Apple Music" raises inside the `try`; only the user part of the cleanup then runs.
- The upload functions switch on `Config.UPLOAD_MODE` (`'Telegram'`/`'Rclone'`), not on `bot_set.upload_mode` (`'RCLONE'`); they are modelled with the configuration value.
- `rclone_upload` refers to `bot_set`, which its module never imports. This is recorded under Findings.

## Model

| member | source | states |
|---|---|---|
| Utils.PartName | bot/helpers/utils.py:204-207 | A part name is the folder path followed by a dot, so it begins with the folder. |
| Utils.PartNameInjective | bot/helpers/utils.py:204-207 | Different part numbers give different archive names (`X.zip`, `X.part2.zip`, ...). |
| Utils.PartNameNotFile | bot/helpers/utils.py:204-219 | For a folder that is not empty and does not end in `/`, no archive name is the path of a walked file: `os.path.join` puts `/` after the folder, and a part name puts `.` there. |
| Utils.AddToZip | bot/helpers/utils.py:202-213 | `add_to_zip` returns the part's name and writes then removes each given file, in order. |
| Utils.SplitFromKeeps | bot/helpers/utils.py:215-234 | Parts already sealed stay the first parts, and a non-empty current batch adds at least one more part, which is non-empty. |
| Utils.SplitPartsFacts | bot/helpers/utils.py:215-234 | The parts of a walk are named consecutively, and concatenated they give the walk in order. Each part was sealed on overflow, and each is within `MAX_SIZE` unless it holds at most one file. |
| Utils.SplitPartsFirst | bot/helpers/utils.py:222-226 | The first part is empty exactly when the first file alone exceeds `MAX_SIZE`. An empty walk gives no parts. |
| Utils.SplitParts | bot/helpers/utils.py:189-236 | The parts `split_zip_folder` builds from the walk. Characterised by Utils.SplitPartsFacts and Utils.SplitPartsFirst; Utils.SplitZipFolder's loop is proved equal to it. |
| Utils.SplitZipFolder | bot/helpers/utils.py:189-236 | The loop computes the parts of the walk and returns their paths. Its trace creates each part, writing and removing each file. The parts are named in sequence, concatenate to the walk, respect the size bound, are sealed only on overflow, and are non-empty after the first. The first part is empty iff the first file is oversized. |
| Utils.SplitZipDiskEffect | bot/helpers/utils.py:209-234 | For a folder that does not end in `/`, after the split the disk holds every part and no walked file, and nothing else changes. |
| Utils.NamedPathsAreParts | bot/helpers/utils.py:204-207 | Every returned path is `PartName(folder, n)` for some `n >= 1`. |
| Utils.SplitZipTrace | bot/helpers/utils.py:209-212 | The files are written into the archives in walk order, and each is removed right after it is written. |
| Utils.ZipFolder | bot/helpers/utils.py:239-256 | `zip_folder` writes one archive `{folder}.zip` holding the whole walk, removing each file after writing it. |
| Utils.ZipHandler | bot/helpers/utils.py:172-186 | Telegram mode returns the list of split parts, any other mode the single archive. Either way every walked file is archived in order. |
| Utils.Backoff | bot/helpers/utils.py:57 | The sleep after failed attempt `k` is `2**k` seconds. |
| Utils.BackoffTotal | bot/helpers/utils.py:43-57 | Backing off after `n` failed attempts sleeps `2**(n+1) - 2` seconds in total. |
| Utils.DownloadFile | bot/helpers/utils.py:30-59 | A path without a directory part raises FileNotFoundError from `os.makedirs('')` before any attempt. Otherwise `retries <= 0` makes no attempt and returns None. Otherwise `1..retries` attempts are made, and every attempt before the last was a network error. The loop stops early only on a non-network outcome. The result is the last attempt's message: None for status 200, `HTTP Status: N`, `Failed after {retries} attempts: ...` or `Unexpected error: ...`. Each retry sleeps `2**attempt`. |
| Utils.FieldNamesAreWords | bot/helpers/utils.py:72-91 | Example: the table has eighteen metadata fields, and each name is a plain word. |
| Utils.Placeholder | bot/helpers/utils.py:72-95 | A placeholder is its name between braces. |
| Utils.Fields | bot/helpers/utils.py:72-91 | Each field gives its placeholder and the stored value, or `''` when the key is missing. |
| Utils.TableShape | bot/helpers/utils.py:72-95 | The table has 18 entries, or 20 with a user. The entries are in source order, a missing field gives `''`, and `{provider}` is title-cased. `{user}`/`{username}` come from the user's `name`/`user_name`, only when a non-empty user is given. |
| Utils.TableKeyed | bot/helpers/utils.py:72-95 | Every key of the table is non-empty, so each replacement is well defined. |
| Utils.ReplaceEach | bot/helpers/utils.py:96-97 | The loop rebinds the text once per table entry, as `str.replace` of each key in table order. |
| Utils.FormatString | bot/helpers/utils.py:62-99 | Formatting builds the placeholder table for the data and user, then replaces each key in turn. |
| Utils.ApplyUntouched | bot/helpers/utils.py:97-98 | Text that contains none of the keys comes back unchanged. |
| Utils.ApplyAround | bot/helpers/utils.py:97-98 | A character that occurs in no key splits the formatting into independent halves. |
| Utils.PlaceholderPrefix | bot/helpers/utils.py:72-95 | One placeholder can begin another only when their names are equal, so no key hides inside another. |
| Utils.TableIsPlaceholders | bot/helpers/utils.py:72-95 | Every table key is the placeholder of a known word-like name. |
| Utils.FormatKeepsOther | bot/helpers/utils.py:72-100 | A placeholder whose name is not in the table is left as written. |
| Utils.FormatAroundParen | bot/helpers/utils.py:97-98 | Formatting splits around a parenthesis. |
| Utils.FormatEmpty | bot/helpers/utils.py:97-100 | Example: empty text formats to empty text. |
| Utils.FormatKeepsRLink | bot/helpers/utils.py:72-100 | A text ending `({r_link})` keeps that literal ending, whatever the metadata. |
| Utils.RLinkUnknown | bot/helpers/utils.py:72-95 | Example: `r_link` is not a placeholder of the table. |
| Utils.CreateLink | bot/helpers/utils.py:135-169 | A path not below the base is an error. A direct link exists iff `link_options` is RCLONE or Both and `rclone link` exits 0; it is the stripped stdout. An index link exists iff `link_options` is Index or Both and `INDEX_LINK` is set; it is `INDEX_LINK + '/' + quote(relpath)`. |
| Utils.CreateLinkIndex | bot/helpers/utils.py:144-167 | For a file joined below the base, the index link is the root, `/` and the quoted relative path. Percent-decoding the quoted path gives back its UTF-8 bytes. |
| Utils.RemoveEach | bot/helpers/utils.py:415-421 | Each listed zip part is removed, in order. |
| Utils.RemoveTrees | bot/helpers/utils.py:428-450 | Each user directory gets a tree removal, in order. |
| Utils.RunEffectsRemoves | bot/helpers/utils.py:403-450 | A path under a tree that cleanup removes is gone afterwards, whatever cleanup does later. |
| Utils.Cleanup | bot/helpers/utils.py:391-450 | The removals `cleanup` makes. Characterised by Utils.CleanupAppleFolder, Utils.CleanupFolder, Utils.CleanupZipParts and Utils.CleanupUserGone. |
| Utils.CleanupAppleFolder | bot/helpers/utils.py:398-404 | A folder path containing "Apple Music" is removed as a tree, and cleanup then returns at once, even when a user is given. |
| Utils.CleanupFolder | bot/helpers/utils.py:407-450 | Otherwise the type picks the zip flag: album_zip for album, artist_zip for artist, playlist_zip for anything else. The folder is removed as a file when the flag is set and as a tree when it is not. A user adds the three user directories. |
| Utils.CleanupZipParts | bot/helpers/utils.py:414-421 | With the zip flag set, each listed part is removed, in order. |
| Utils.CleanupUserGone | bot/helpers/utils.py:428-450 | Unless an Apple Music folder ended cleanup early, nothing remains below the user's Apple Music, download and temp directories. |
| Utils.ProgressBar | bot/helpers/utils.py:366-372 | Drawing the bar fails with ZeroDivisionError exactly when `total` is 0. |
| Utils.ProgressBarShape | bot/helpers/utils.py:366-372 | For `done <= total` the bar has ten cells: the first `floor(done/total*10)` are full and the rest empty. It is all empty at 0 and all full at `total`. |
| Utils.ProgressBarMonotone | bot/helpers/utils.py:366 | More done never fills fewer cells. |
| Utils.CompletionPercent | bot/helpers/utils.py:122 | The percentage `int(completed / total * 100)`, in exact arithmetic. Characterised by Utils.CompletionPercentBounds and Utils.TaskProgress. |
| Utils.CompletionPercentBounds | bot/helpers/utils.py:122 | The percentage never decreases, never exceeds 100, and is 100 when every task has completed. |
| Utils.TaskProgress | bot/helpers/utils.py:113-122 | The counter yields one percentage per completed task, each `int(k/total*100)`. They never decrease, never exceed 100, and end at 100. |
| Uploader.KeepTitleChars | bot/helpers/uploader.py:25 | Only word, space and `-` characters survive, and a title made only of those is kept whole. |
| Uploader.SafeTitleFacts | bot/helpers/uploader.py:25 | A safe title is at most 50 kept characters, and making it safe again changes nothing. |
| Uploader.SimpleZipPath | bot/helpers/uploader.py:22-36 | The path `create_simple_zip` writes. Characterised by Uploader.SimpleZipPathShape and Uploader.SimpleZipBesideFolder. |
| Uploader.SimpleZipPathShape | bot/helpers/uploader.py:22-36 | The path is `{folderpath}_{provider}_{safe_title}` followed by `_Album`, `_Discography` or `_Playlist` for those types (nothing otherwise) and `.zip`. The defaults are `AppleMusic`, `download` and `content`. |
| Uploader.SimpleZipBesideFolder | bot/helpers/uploader.py:36-46 | The zip lies beside the folder, not inside it, so removing the folder's tree keeps the zip. |
| Uploader.BasePath | bot/helpers/uploader.py:56-59 | The base always begins with `LOCAL_STORAGE`. |
| Uploader.BasePathApple | bot/helpers/uploader.py:56-57 | A path below `LOCAL_STORAGE/Apple Music` has that folder as its base, and its Rclone path is what follows the folder, leading slashes dropped. |
| Uploader.BasePathOther | bot/helpers/uploader.py:58-59 | A path below `LOCAL_STORAGE` that does not mention "Apple Music" has the storage as its base, and its Rclone path is what follows it, leading slashes dropped. |
| Uploader.RcloneUpload | bot/helpers/uploader.py:341-381 | An empty `RCLONE_DEST` gives (None, None). A direct link exists iff the options ask for it and `rclone link` exits 0. An index link exists iff the options ask for one and `INDEX_LINK` is set, and it is `INDEX_LINK/relative_path` without percent-encoding. |
| Uploader.RcloneUploadAsWrittenFails | bot/helpers/uploader.py:352-361 | As written, the function returns only when `RCLONE_DEST` is empty, and then with (None, None). Otherwise it raises NameError on `bot_set`. |
| Uploader.RcloneRelative | bot/helpers/uploader.py:356 | `path.replace(base_path, '').lstrip('/')`. Characterised by Uploader.RcloneRelativeOfJoin, Uploader.BasePathApple and Uploader.BasePathOther. |
| Uploader.RcloneRelativeOfJoin | bot/helpers/uploader.py:356 | For a file below the base whose remaining path does not repeat the base, the relative path is that remaining path with leading slashes stripped. |
| Uploader.RcloneTextKeepsRLink | bot/helpers/uploader.py:83-94 | Without an index link, a Rclone message ends with the literal `({r_link})`, because `format_string` has no such key. |
| Uploader.RcloneTextIndexLine | bot/helpers/uploader.py:92-93 | With an index link, the message ends with the index-link line. |
| Uploader.MediaUpload | bot/helpers/uploader.py:48-148 | The shared send step of `track_upload` and `music_video_upload`. Characterised by Uploader.MediaSentWithMeta, Uploader.TrackTelegram and Uploader.OtherModeOnlyCleans. |
| Uploader.SendMeta | bot/helpers/uploader.py:73-128 | The `meta` each media upload passes to `send_message`. Characterised by Uploader.MediaSentWithMeta. |
| Uploader.TrackActions | bot/helpers/uploader.py:48-99 | The actions of `track_upload`. Characterised by Uploader.Uploader.TrackUpload, Uploader.TrackTelegram and Uploader.UploadsEndWithCleanup. |
| Uploader.AlbumActions | bot/helpers/uploader.py:150-215 | The actions of `album_upload`. Characterised by Uploader.Uploader.AlbumUpload, Uploader.AlbumTelegram and Uploader.AlbumRclone. |
| Uploader.ArtistActions | bot/helpers/uploader.py:217-276 | The actions of `artist_upload`. Characterised by Uploader.Uploader.ArtistUpload, Uploader.ArtistTelegram and Uploader.AlbumRclone. |
| Uploader.PlaylistActions | bot/helpers/uploader.py:278-339 | The actions of `playlist_upload`. Characterised by Uploader.Uploader.PlaylistUpload, Uploader.AlbumRclone and Uploader.UploadsEndWithCleanup. |
| Uploader.Uploader.TrackUpload | bot/helpers/uploader.py:48-99 | `track_upload` appends its actions: send the audio with its duration, artist, title and thumbnail as `meta` (Telegram), or send the link text (Rclone), then remove the file and the thumbnail if set. |
| Uploader.Uploader.MusicVideoUpload | bot/helpers/uploader.py:101-148 | `music_video_upload` appends the same actions, sending a video whose `meta` is the whole record: duration, artist, title, thumbnail and the size when the record has one. |
| Uploader.MediaSentWithMeta | bot/helpers/uploader.py:61-128 | In Telegram mode the audio call carries the track's file, duration, artist, title and thumbnail; the video call carries the file, duration, thumbnail and the record's size, or 1920x1080 without one. |
| Uploader.Uploader.UploadTracks | bot/helpers/uploader.py:193-194 | Uploading tracks one after another appends their actions in order. |
| Uploader.Uploader.AlbumUpload | bot/helpers/uploader.py:150-215 | `album_upload` appends one of three things. It may zip, send one document and remove the zip. It may upload each track. Or it may edit the poster or send a link text. Then it removes the folder's tree. |
| Uploader.Uploader.UploadAlbums | bot/helpers/uploader.py:259-260 | Uploading albums one after another appends their actions in order. |
| Uploader.Uploader.ArtistUpload | bot/helpers/uploader.py:217-276 | `artist_upload` appends one of three things: the zip-and-send, each album's upload, or a link text. Then it removes the folder's tree. |
| Uploader.Uploader.PlaylistUpload | bot/helpers/uploader.py:278-339 | `playlist_upload` appends one of three things: the zip-and-send, each track's upload, or a link text. The artist defaults to 'Various Artists'. Then it removes the folder's tree. |
| Uploader.TrackTelegram | bot/helpers/uploader.py:61-99 | In Telegram mode a track upload sends the track's file once and removes no tree. |
| Uploader.TracksTelegram | bot/helpers/uploader.py:192-194 | In Telegram mode, uploading tracks one by one sends their files in order. |
| Uploader.AlbumTelegram | bot/helpers/uploader.py:163-194 | With the zip flag on, a Telegram album zips, sends exactly that zip as one document, removes it, then removes the tree. With it off, it sends every track in order and then removes the tree. |
| Uploader.AlbumsTelegram | bot/helpers/uploader.py:258-260 | Uploading albums in Telegram mode removes their trees in order. |
| Uploader.ArtistTelegram | bot/helpers/uploader.py:257-276 | With the zip flag off, a Telegram artist uploads each album in turn, then removes its own tree. |
| Uploader.AlbumRclone | bot/helpers/uploader.py:195-215 | In Rclone mode an album posts exactly one message: an edit of `poster_msg` when there is one, a new message otherwise. Then it removes the tree. |
| Uploader.UploadsEndWithCleanup | bot/helpers/uploader.py:97-339 | Album, artist and playlist uploads always end with removal of their folder's tree. Track and video uploads end by removing the file, then the thumbnail if set. |
| Uploader.OtherModeOnlyCleans | bot/helpers/uploader.py:61-339 | In a mode that is neither Telegram nor Rclone nothing is sent; only the cleanup happens. |
| AppleUtils.DownloaderCommand | bot/providers/apple_utils.py:75-78 | The command is the downloader path, then the options in order, then the URL. |
| AppleUtils.DigitRunEnd | bot/providers/apple_utils.py:102 | The run of digits starting at `i` ends at the first non-digit. |
| AppleUtils.PercentAtMatches | bot/providers/apple_utils.py:102 | The test at a position agrees with the regex `(\d+)%` matching there. |
| AppleUtils.SearchPercent | bot/providers/apple_utils.py:102 | The search returns the first position where `(\d+)%` matches, or none when there is none. |
| AppleUtils.Progress | bot/providers/apple_utils.py:102-105 | The number `(\d+)%` captures. Characterised by AppleUtils.ProgressFound and AppleUtils.ProgressOfPrinted. |
| AppleUtils.ProgressFound | bot/providers/apple_utils.py:102-103 | A chunk reports progress iff `(\d+)%` matches somewhere in it. |
| AppleUtils.ProgressOfPrinted | bot/providers/apple_utils.py:102-105 | A chunk that prints `n%` after text without digits reports progress `n`. |
| AppleUtils.ChunkEdit | bot/providers/apple_utils.py:100-109 | A progress message is due iff a status message is tracked and the chunk matches. |
| AppleUtils.ChunkEditAsWritten | bot/providers/apple_utils.py:104-111 | The chunk handling as written. Characterised by AppleUtils.ProgressNeverShownAsWritten. |
| AppleUtils.ProgressNeverShownAsWritten | bot/providers/apple_utils.py:104-111 | As written, no progress message is ever shown, because `edit_message` is unbound and the bare `except` drops the NameError. With the name imported, a chunk `50%` shows `Apple Music Download: 50%`. |
| AppleUtils.ProgressEdits | bot/providers/apple_utils.py:100-111 | The edits the read loop makes, with the corrected chunk handling. Characterised by AppleUtils.ProgressEditsFacts and AppleUtils.DrainOutput. |
| AppleUtils.ProgressEditsFacts | bot/providers/apple_utils.py:92-111 | No edits happen without a tracked message. There is at most one per chunk, and each shows the progress of some chunk. |
| AppleUtils.ChunksRead | bot/providers/apple_utils.py:92-96 | The chunks kept are the stream's prefix up to the first empty read. |
| AppleUtils.ChunksReadStops | bot/providers/apple_utils.py:92-96 | Reading stops exactly at the first empty chunk. |
| AppleUtils.DrainOutput | bot/providers/apple_utils.py:91-114 | The loop's output is the concatenation of the chunks read before the first empty one. Its edits are those of the progress policy. |
| AppleUtils.DownloaderResult | bot/providers/apple_utils.py:122-131 | Success iff the return code is 0. A failure reports the stripped stderr, or the stdout lines joined by newlines when stderr is blank. A return code that is still None counts as a failure. |
| AppleUtils.FailureReportsOutput | bot/providers/apple_utils.py:126-129 | A failure with blank stderr and one line of stdout reports that line. |
| AppleUtils.UnreapedRunFailsAsWritten | bot/providers/apple_utils.py:126 | As written, `returncode` is read before the process is reaped, so it can still be None, and a run that succeeded is reported as failed. |
| AppleUtils.DownloaderResultAfterWait | bot/providers/apple_utils.py:126-131 | With the exit status awaited, success is exactly exit status 0, and failures report as before. |
| AppleUtils.RemoveForbidden | bot/providers/apple_utils.py:149 | The characters `\ / * ? : " < > \|` are removed and those left come from the input. A name without them is unchanged. |
| AppleUtils.Underscored | bot/providers/apple_utils.py:150 | Every space becomes `_` and nothing else changes. |
| AppleUtils.SanitizeNameFacts | bot/providers/apple_utils.py:149-150 | The sanitised name has at most 100 characters, none forbidden and no spaces, and sanitising it again changes nothing. |
| AppleUtils.SafeNameAsWritten | bot/providers/apple_utils.py:149-155 | The safe name as written. Characterised by AppleUtils.BlankTitleRaisesAsWritten. |
| AppleUtils.BlankTitleRaisesAsWritten | bot/providers/apple_utils.py:153-154 | As written, a title that is blank after sanitising (`???`) raises NameError, because `time` is not imported. |
| AppleUtils.SafeName | bot/providers/apple_utils.py:149-155 | The corrected safe name, with `time` imported. Characterised by AppleUtils.SafeNameNotBlank and AppleUtils.BlankTitleRaisesAsWritten. |
| AppleUtils.SafeNameNotBlank | bot/providers/apple_utils.py:149-155 | With the clock supplied, the name is never blank, and it is the sanitised title whenever that is not blank. |
| AppleUtils.KindSuffixIgnoresCase | bot/providers/apple_utils.py:144-167 | The type suffix does not depend on letter case. |
| AppleUtils.KindSuffixMixedCase | bot/providers/apple_utils.py:144-161 | A type `PlayList` gets the suffix ` (Playlist)`. |
| AppleUtils.AppleZipName | bot/providers/apple_utils.py:144-167 | The name is `[{provider}] {safe_name}` followed by the type's suffix, with the defaults 'Apple Music', 'Unknown' and 'album'. |
| AppleUtils.CandidateInjective | bot/providers/apple_utils.py:171-176 | Different counters give different candidate paths. |
| AppleUtils.CandidatesBound | bot/providers/apple_utils.py:174-177 | The loop cannot pass more candidates than there are existing paths, so it terminates. |
| AppleUtils.UniqueZipPath | bot/providers/apple_utils.py:173-177 | The path returned is the first candidate not on disk (`{name}.zip`, `{name}_1.zip`, ...), and its index is at most the number of existing paths. |
| AppleUtils.CreateAppleZip | bot/providers/apple_utils.py:133-188 | The zip gets the first free candidate name in `os.path.dirname(directory)`, and it holds every walked file in walk order. |
| AppleUtils.AppleZipBeside | bot/providers/apple_utils.py:170-171 | The zip lies in `os.path.dirname(directory)`, which is the parent for a directory without a trailing `/` and the directory itself for `x/`, and its basename is the candidate name. |
| Message.SpamKey | bot/helpers/message.py:67-84 | A mode tracks a key iff it is 'CHAT+' (the chat) or 'USER' (the user). |
| Message.RemoveFirst | bot/helpers/message.py:69-73 | `list.remove` takes away exactly one occurrence, and it is a no-op when the key is absent. |
| Message.AcquireEffect | bot/helpers/message.py:74-85 | A key already held blocks and changes nothing; otherwise the key is appended. In CHAT+ mode the cid decides, in USER mode the uid. Any other mode never blocks and never changes the list. |
| Message.AcquireThenBlocked | bot/helpers/message.py:74-84 | Once acquired, the same key is blocked. |
| Message.AcquireRevokeRestores | bot/helpers/message.py:67-84 | Acquiring and then revoking restores the list. |
| Message.NoDuplicatesKept | bot/helpers/message.py:69-84 | Acquire and revoke never create duplicates, and revoke removes the key completely. |
| Message.SpamRegistry.AntiSpam | bot/helpers/message.py:66-85 | Revoking never blocks and removes the mode's key. Acquiring blocks iff the key is held, and otherwise appends it. A list without duplicates stays without them. |
| Message.CheckUser | bot/helpers/message.py:50-63 | Restricted: true iff uid is an admin. Unrestricted: true if the bot is public, else iff the sender or the chat is in admins, auth_chats or auth_users. Without a message the private check raises AttributeError. |
| Message.AdminAlwaysAllowed | bot/helpers/message.py:50-63 | An admin is always allowed. |
| Message.AuthorisingMoreKeepsAccess | bot/helpers/message.py:58-62 | Authorising more chats or users never revokes access, and the restricted check ignores them. |
| Message.FetchUserDetails | bot/helpers/message.py:36-47 | The record copies the template and fills the user id, first name and user name (the mention when there is no username). `r_id` is the replied-to id when `reply`, else the message id. It also fills the chat id and `bot_msg`. `reply` without a replied-to message raises. |
| Message.EditMessage | bot/helpers/message.py:159-176 | With antiflood, every FloodWait is slept and the edit is retried until Telegram's final answer. Without it, a FloodWait returns None. |
| Message.NotModifiedIsNone | bot/helpers/message.py:169-170 | MessageNotModified returns None. |
| Message.CallFor | bot/helpers/message.py:91-149 | Only the item types text, doc, audio, video and pic make a call. Every call goes to `chat_id` when it is given and non-zero, else to the user's chat, and replies to the user's `r_id`. Each type makes its own call (send_message, send_document, send_audio, send_video, send_photo) carrying the item, and every type but text carries the caption. |
| Message.MediaDefaults | bot/helpers/message.py:109-131 | Example: without meta, audio is sent with duration 0, 'Unknown Artist', 'Unknown Track' and no thumbnail, and video at 1920x1080. |
| Message.SendRetries | bot/helpers/message.py:150-152 | After each FloodWait the identical call is reissued, after sleeping that wait. |
| Message.SendMessageAsWritten | bot/helpers/message.py:88-156 | `send_message` as written. Characterised by Message.SendFailureAsWritten. |
| Message.SendFailureAsWritten | bot/helpers/message.py:153-156 | As written, a failed send or an unknown item type raises UnboundLocalError on `msg`. The corrected send returns None. |
| Message.SendMessage | bot/helpers/message.py:88-156 | The corrected `send_message`. Characterised by Message.SendMessageRetries and Message.SendFailureAsWritten. |
| Message.SendMessageRetries | bot/helpers/message.py:88-156 | The corrected send never raises. It reissues the identical call after every FloodWait, sleeping each, and returns the message sent or None. |
| Settings.GetValue | bot/settings.py:25-27 | `__getvalue__` gives the stored value iff it is truthy, otherwise False. |
| Settings.DecryptString | bot/settings.py:34-40 | Decryption returns the UTF-8 text of the Base64 decoding when both steps succeed, and its input unchanged otherwise. |
| Settings.EncryptString | bot/settings.py:29-32 | `encrypt_string`. Characterised by Settings.EncryptDecryptRoundTrip and Settings.NonEmptyEncoding. |
| Settings.EncryptDecryptRoundTrip | bot/settings.py:29-40 | Decrypting an encrypted string gives it back. |
| Settings.DecryptIncompleteGroup | bot/settings.py:34-40 | Example: a lone Base64 symbol is returned unchanged, because the Base64 decoding fails. |
| Settings.DecryptNotUtf8 | bot/settings.py:34-40 | Example: `/w==` is returned unchanged, because it decodes to the byte 0xFF, which is not UTF-8. |
| Settings.NonEmptyEncoding | bot/settings.py:29-32 | Encryption is empty only for the empty string. |
| Settings.RcloneAvailable | bot/settings.py:84-100 | Whether `check_upload_mode` finds an rclone config. Characterised by Settings.RcloneAvailableFacts and Settings.BotSettings.CheckUploadMode. |
| Settings.UploadModeFor | bot/settings.py:102-108 | The upload mode `check_upload_mode` picks. Characterised by Settings.UploadModeValues and Settings.BotSettings.CheckUploadMode. |
| Settings.RcloneAvailableFacts | bot/settings.py:84-100 | A local `rclone.conf` makes rclone available whatever the configuration. More files on disk never make it unavailable. The fetch matters only for an http `RCLONE_CONFIG`, and only at that URL. Without `RCLONE_CONFIG`, only `rclone.conf` counts. |
| Settings.UploadModeValues | bot/settings.py:102-108 | The upload mode is one of RCLONE, Telegram and Local. It is RCLONE iff rclone is available and the database says RCLONE. A stored Telegram is kept. It is Local iff neither of those holds, so a stored RCLONE without rclone gives Local. |
| Settings.LinkOptionsFor | bot/settings.py:72-73 | The link options are the stored value when rclone is available and the value is set, otherwise 'False'. |
| Settings.AntiSpamFor | bot/settings.py:62-63 | The anti-spam mode is the stored value, or 'OFF'. |
| Settings.FirstLanguage | bot/settings.py:211-214 | The loop finds the first available language with the tag. |
| Settings.SelectLanguage | bot/settings.py:211-214 | The language is a matching available one, or it stays unchanged. |
| Settings.LanguageFor | bot/settings.py:208-209 | The bot language is the stored one or 'en', and never empty. |
| Settings.TidalData | bot/settings.py:164-178 | A refresh token takes precedence and gives `{user_id: None, refresh_token, country_code}`. Nothing saved gives no data. Otherwise the saved data is decrypted and parsed, and a parse failure is an error. |
| Settings.SavedLoginReadBack | bot/settings.py:172-204 | Without a refresh token, a login reads back exactly the JSON text that `save_tidal_login` stored. |
| Settings.BotSettings.constructor | bot/settings.py:43-80 | Every field is derived from the configuration and the database: the Tidal switch, the admins, the language, the authorised users and chats, rclone, the upload mode, anti-spam, the flags read by `__getvalue__`, the link options, the zip flags, and no clients. |
| Settings.BotSettings.CheckUploadMode | bot/settings.py:82-108 | `check_upload_mode` sets rclone when it is available and not otherwise, and it derives the upload mode from it. |
| Settings.BotSettings.SetLanguage | bot/settings.py:206-214 | `set_language` sets the bot language and selects the first matching language; otherwise the language is unchanged. |
| Settings.BotSettings.LoginTidal | bot/settings.py:159-194 | A Tidal client is appended exactly when Tidal is enabled and there is non-empty data. Without data, or when parsing fails, nothing changes. |
| Settings.FirstLanguageAt | bot/settings.py:211-214 | The first match is the language the loop stops at. |
| AppleMetadata.DefaultMetadata | bot/providers/apple_metadata.py:136-144 | The fallback title is the basename without its extension. The artist is 'Unknown Artist', the album 'Unknown Album', the duration 0, and there is no thumbnail. |
| AppleMetadata.DefaultTitleOfJoin | bot/providers/apple_metadata.py:139 | For `dir/stem.ext` the fallback title is `stem`. |
| AppleMetadata.CoverPath | bot/providers/apple_metadata.py:106-126 | The cover path is the file path without its extension, followed by `.jpg`. |
| AppleMetadata.CoverPathExt | bot/providers/apple_metadata.py:106 | The cover path's extension is `.jpg`, and its stem is the file's stem. |
| AppleMetadata.BlockPicture | bot/providers/apple_metadata.py:120-129 | The picture type of one `metadata_block_picture` block, when it decodes. Characterised by AppleMetadata.BlocksCoverIff and AppleMetadata.CoverFromBlocks. |
| AppleMetadata.BlocksCoverIff | bot/providers/apple_metadata.py:120-131 | Picture blocks give a cover iff some block decodes to a front cover (type 3) and the cover can be written. Undecodable blocks are skipped. |
| AppleMetadata.CoverArt | bot/providers/apple_metadata.py:93-134 | The corrected extractor (see Findings), which the extraction routes use: a cover found is always written at the cover path. |
| AppleMetadata.CoverArtAsWritten | bot/providers/apple_metadata.py:93-134 | `extract_cover_art` as written. Characterised by AppleMetadata.FrontCoverBlockLostAsWritten, AppleMetadata.CoverArtAgrees and AppleMetadata.CoverFromBlocks. |
| AppleMetadata.CoverFromBlocks | bot/providers/apple_metadata.py:104-131 | Without MP4 or ID3 pictures, a cover comes exactly from a writable front-cover block. |
| AppleMetadata.FrontCoverBlockLostAsWritten | bot/providers/apple_metadata.py:120-131 | As written, a file whose only picture is a front-cover block gets no cover, because `base64` is unbound and the bare `except` skips every block. The corrected version finds it. |
| AppleMetadata.CoverArtAgrees | bot/providers/apple_metadata.py:102-117 | Outside the picture-block branch, the written and the corrected extraction agree. |
| AppleMetadata.TagOr | bot/providers/apple_metadata.py:21-33 | A missing tag gives its default. A present tag gives its first value, and an empty tag list raises. |
| AppleMetadata.NumberOr | bot/providers/apple_metadata.py:57-58 | Width and height give their first value, or the default when missing. An empty list raises. |
| AppleMetadata.NotBothExtensions | bot/providers/apple_metadata.py:75-77 | An `.m4a` path is never also a video path. |
| AppleMetadata.ExtractApple | bot/providers/apple_metadata.py:66-91 | `extract_apple_metadata`. Characterised by AppleMetadata.ExtractAppleDispatch, AppleMetadata.M4aRecord, AppleMetadata.UnreadableGivesDefault and AppleMetadata.ThumbnailIsCoverPath. |
| AppleMetadata.ExtractAudio | bot/providers/apple_metadata.py:9-39 | `extract_audio_metadata`. Characterised by AppleMetadata.ExtractAppleDispatch and AppleMetadata.UnreadableGivesDefault. |
| AppleMetadata.ExtractVideo | bot/providers/apple_metadata.py:41-64 | `extract_video_metadata`. Characterised by AppleMetadata.ExtractVideoShape and AppleMetadata.UnreadableGivesDefault. |
| AppleMetadata.GenericMetadata | bot/providers/apple_metadata.py:27-35 | The record built from generic tags, shared by the non-MP4 branches. Characterised by AppleMetadata.ExtractAppleDispatch and AppleMetadata.NotBothExtensions. |
| AppleMetadata.ExtractAppleDispatch | bot/providers/apple_metadata.py:66-91 | `.mp4`/`.m4v`/`.mov` go to video extraction and `.m4a` to audio extraction. Anything else gets the generic record, which is the audio extraction's non-MP4 branch. The routes build on the corrected `CoverArt`. |
| AppleMetadata.ExtractVideoShape | bot/providers/apple_metadata.py:41-64 | A video extraction is either the fallback record or an MP4 record with a size and no album. For non-video extensions it is always the fallback. |
| AppleMetadata.UnreadableGivesDefault | bot/providers/apple_metadata.py:37-91 | A file that cannot be opened gets the fallback record on every route. |
| AppleMetadata.ThumbnailIsCoverPath | bot/providers/apple_metadata.py:25-87 | A thumbnail is always the cover path, and that path was written. |
| AppleMetadata.M4aRecord | bot/providers/apple_metadata.py:17-39 | A readable `.m4a` reports its tags with the defaults 'Unknown', 'Unknown Artist' and 'Unknown Album', its length and its cover. An empty tag list gives the fallback record. |
| Encoding.Utf8RoundTrip | bot/settings.py:30-37 | Decoding the UTF-8 encoding of a string gives it back. |
| Encoding.Base64RoundTrip | bot/settings.py:31-36 | `b64decode(b64encode(b)) == b` for all bytes. |
| Encoding.Base64EncodeLength | bot/settings.py:31 | The encoding has 4 symbols for every started group of 3 bytes. |
| Encoding.QuoteByte | bot/helpers/utils.py:167 | A safe byte is kept, and any other byte becomes `%` and two upper-case hex digits. |
| Encoding.QuoteBytesAlphabet | bot/helpers/utils.py:167 | A quoted path uses only unreserved characters, `/` and `%`. |
| Encoding.QuoteRoundTrip | bot/helpers/utils.py:167 | Percent-decoding a quoted path gives its UTF-8 bytes, and those give the path back. |
| Encoding.QuoteSafeText | bot/helpers/utils.py:167 | A path of unreserved characters and `/` is quoted unchanged. |
| Paths.RelativeTo | bot/helpers/utils.py:144 | `relative_to` succeeds iff the path and the base have the same root (`/`, `//` or none) and the base's components are a prefix of the path's components. |
| Paths.DoubleSlashRootIsOwn | bot/helpers/utils.py:144 | A leading `//` is its own root, so `//a/b` is not relative to `/a`. |
| Paths.RelativeToOfJoin | bot/helpers/utils.py:144 | A path that `os.path.join` builds from a non-empty base and a relative tail is relative to the base, as the tail's normalised components. |
| Paths.SplitExt | bot/providers/apple_metadata.py:136-139 | `splitext` splits the path into a stem and an extension that concatenate to it, and the extension has no slash and one leading dot. |
| Paths.SplitExtOfStem | bot/providers/apple_metadata.py:139 | `splitext(stem + ext)` gives back the stem and the extension. |
| Strings.TitleIdempotent | bot/helpers/utils.py:88 | Title-casing the provider twice is the same as once. |
| Strings.NatToStringInjective | bot/helpers/utils.py:207 | Different part numbers print differently. |
| Archive.RunZipsOps | bot/helpers/utils.py:209-212 | Writing the archives adds their paths and removes every archived file. |
| Archive.ZipsOpsOrder | bot/helpers/utils.py:210-212 | In the archiving trace each file is removed right after it is written. |

## Left out

- Network, Telegram and subprocess I/O. The aiohttp session and body writing, the `requests` fetch of a remote rclone config and the writing of `rclone.conf`, the Telegram client calls, and the rclone and downloader processes are all left out. Their results are inputs.
- The directory `os.makedirs` creates in `download_file`, the YAML config file `run_apple_downloader` writes, and the log lines. Only the FileNotFoundError of `os.makedirs('')` affects a result, and Utils.DownloadFile models it; a makedirs that fails for any other reason (permissions, a file in the way) is not modelled.
- Concurrency. The semaphore and `asyncio.gather` of `run_concurrent_tasks` and the thread pool of `zip_handler` are left out. `Utils.TaskProgress` models its coroutines completing one after another.
- Compression and zip containers: an archive is its ordered list of entries.
- Floating point: `MAX_SIZE` is its integer threshold.
- Utils.ProgressBar: `math.floor(done / total * 10)` is computed exactly, so a float rounding that loses a cell is not modelled.
- Utils.CompletionPercentBounds: `int(completed / total * 100)` is computed exactly (float rounding can give 28 for 29/100).
- `progress_message`'s `edit_message` call and its FloodWait skip, `move_sorted_playlist`, `post_art_poster`, `create_simple_text`, `edit_art_poster` and `post_simple_message` are left out. They only format and send through Telegram.
- Utils.DownloadFile: the exception text `str(e)` is abstracted to a given string.
- Utils.Cleanup: the `os.path.exists` checks are not modelled, because they only skip removals that would do nothing.
- The Qobuz and Deezer logins, the Tidal API's `login_from_saved`, and the quality and spatial settings of `login_tidal`. They are foreign services.
- `initialize_apple`'s settings dictionary and its installer run, because both are external.
- `AUTH_USERS`/`AUTH_CHATS` JSON parsing, because the database supplies the parsed id lists.
- Settings.BotSettings.constructor: it assigns the language and the upload mode directly instead of calling `SetLanguage` and `CheckUploadMode`, with the results those methods ensure. The language module `lang.s` is the `lang` field. `self.tidal`, which the Python constructor never sets, starts false.
- Settings.TidalData: `json.loads` is a supplied function, and `None` stands for the exception it raises.
- AppleMetadata: mutagen's tag parsing, the FLAC picture parser and the cover-file write are functions of a `Library` value. `int(info.length)` is taken as an already truncated integer, and tag values are strings.
- AppleUtils.DrainOutput: chunks are treated as already-decoded text. Splitting a multi-byte character across two 4096-byte reads, and `errors='ignore'`, are not modelled.
- AppleUtils.SearchPercent: `\d` is taken as ASCII digits only.
- Uploader.KeepTitleChars: `\w` is approximated by ASCII letters, digits and `_`, and every non-ASCII character is kept, including non-ASCII punctuation that Python's Unicode `\w` would drop.
- Strings: ASCII-only case mapping.
- AppleUtils.DownloaderCommand: `options=None` is passed as the empty list, which adds nothing, as in the source.
- Utils.PartNameNotFile: stated only for a folder that is not empty and does not end in `/`. For `x/`, part 1 is `x/.zip`, inside the walked folder; `zip_folder` creates it before `os.walk` lists the folder, so the walk can meet the archive itself. That self-inclusion is not modelled.
- Utils.SplitZipDiskEffect: stated for a folder that does not end in `/`, for the same reason as Utils.PartNameNotFile.
- Utils.FormatString: metadata values arrive as the strings `str()` makes of them. The other values go to `str.replace` unconverted in the source, so a present `None` title raises TypeError and a non-string `provider` raises AttributeError on `.title()`; neither error is modelled.
- Utils.Fields: as Utils.FormatString, each value is already its `str()`, so the conversion of the nine numeric fields and the errors of non-string values are not modelled.
- Utils.CreateLink: the output of `rclone link` is taken as decoded text. The strict `stdout.decode()` / `stderr.decode()` raise UnicodeDecodeError on bytes that are not UTF-8, and that error is not modelled.
- Uploader.RcloneUpload: the output of `rclone link` is taken as decoded text, as for Utils.CreateLink; the UnicodeDecodeError of the strict decode is not modelled.
- AppleUtils.DownloaderResult: stdout and stderr are taken as decoded text. The strict `stderr.decode()` raises UnicodeDecodeError on bytes that are not UTF-8, and that error is not modelled.
- AppleMetadata.ExtractAppleDispatch: the extraction routes use the corrected `CoverArt`, as the Findings table says for the corrected member. For a FLAC file whose only picture is a front-cover block, the routes therefore report that cover as the thumbnail, where the code as written reports none (AppleMetadata.FrontCoverBlockLostAsWritten).
- AppleMetadata.CoverArt: it is the corrected extractor, with `base64` available; `AppleMetadata.CoverArtAsWritten` is the code as written, and `AppleMetadata.CoverArtAgrees` says where the two agree.
- Paths.RelativeToOfJoin: stated for a path that `os.path.join` builds from a relative tail. A literal `base + '/' + rel` with base `/` or `//` has another pathlib root than the base and is not relative to it.
- Uploader.Uploader.TrackUpload: in Rclone mode (`Config.UPLOAD_MODE == 'Rclone'`) with a non-empty `RCLONE_DEST`, the trace is built on the corrected Uploader.RcloneUpload, so it sends the link text and then removes the file and thumbnail. As written, `rclone_upload` raises NameError on `bot_set` (uploader.py:361) and nothing in `track_upload` catches it, so nothing is sent and nothing is removed.
- Uploader.Uploader.MusicVideoUpload: in Rclone mode (`Config.UPLOAD_MODE == 'Rclone'`) with a non-empty `RCLONE_DEST`, the trace is built on the corrected Uploader.RcloneUpload, so it sends the link text and removes the files; as written the NameError at uploader.py:361 stops `music_video_upload` before either.
- Uploader.Uploader.AlbumUpload: in Rclone mode (`Config.UPLOAD_MODE == 'Rclone'`) with a non-empty `RCLONE_DEST`, the trace is built on the corrected Uploader.RcloneUpload, so it posts the link text and removes the album's tree; as written the NameError at uploader.py:361 escapes `album_upload` before either.
- Uploader.Uploader.ArtistUpload: in Rclone mode (`Config.UPLOAD_MODE == 'Rclone'`) with a non-empty `RCLONE_DEST`, the trace is built on the corrected Uploader.RcloneUpload, so it posts the link text and removes the artist's tree; as written the NameError at uploader.py:361 escapes `artist_upload` before either.
- Uploader.Uploader.PlaylistUpload: in Rclone mode (`Config.UPLOAD_MODE == 'Rclone'`) with a non-empty `RCLONE_DEST`, the trace is built on the corrected Uploader.RcloneUpload, so it posts the link text and removes the playlist's tree; as written the NameError at uploader.py:361 escapes `playlist_upload` before either.
- Uploader.AlbumRclone: in Rclone mode (`Config.UPLOAD_MODE == 'Rclone'`) with a non-empty `RCLONE_DEST`, the trace is built on the corrected Uploader.RcloneUpload, so it makes one post and then removes the tree; as written the NameError at uploader.py:361 comes first, so neither happens.
- Uploader.UploadsEndWithCleanup: in Rclone mode (`Config.UPLOAD_MODE == 'Rclone'`) with a non-empty `RCLONE_DEST`, the trace is built on the corrected Uploader.RcloneUpload, so it ends with the cleanup; as written the NameError at uploader.py:361 ends every upload in that mode before its cleanup.
- AppleUtils.DrainOutput: its edits are `ProgressEdits`, which uses the corrected chunk handling (AppleUtils.ChunkEdit). As written, `edit_message` is never imported and the bare `except` swallows the NameError (apple_utils.py:104-111), so a chunk printing `50%` makes no edit at all (AppleUtils.ProgressNeverShownAsWritten).
- AppleUtils.AppleZipName: the name is built from the corrected AppleUtils.SafeName. For a title that is blank after sanitising, such as `???`, the code as written raises NameError on `time` (apple_utils.py:154) and builds no name (AppleUtils.BlankTitleRaisesAsWritten).
- AppleUtils.CreateAppleZip: built on the corrected AppleUtils.SafeName, so for a title such as `???` it creates a zip; as written `create_apple_zip` raises NameError at apple_utils.py:154 first.
- AppleUtils.AppleZipBeside: the placement is stated for the name the corrected AppleUtils.SafeName gives; for a title such as `???` the code as written builds no name (apple_utils.py:154).
- Utils.TaskProgress: each value is Utils.CompletionPercent, computed exactly. For 29 of 100 tasks completed it gives 29, where Python's `int((29/100)*100)` gives 28 (utils.py:122).
- Message.CallFor: an `Option` field of `MediaMeta` cannot tell a missing key from a key whose value is `None`. With `'duration': None`, `int(meta.get('duration', 0))` raises TypeError inside the `try` (message.py:111), and `'artist': None` is passed on as `None` rather than replaced by the default. Neither is modelled; the uploads always pass a real duration.

## Findings

| source | as written | input that shows it | evidently intended | confidence | as-written member | corrected member |
|---|---|---|---|---|---|---|
| bot/helpers/uploader.py:361 | `rclone_upload` reads `bot_set.link_options`, but `bot_set` is never imported into the module | any call with `RCLONE_DEST` set | use the link options from the settings | high, not executed | Uploader.RcloneUploadAsWrittenFails | Uploader.RcloneUpload |
| bot/providers/apple_utils.py:106 | `edit_message` is not imported; the NameError is swallowed by the bare `except` | a chunk `50%` while a status message is tracked | show `Apple Music Download: 50%` | high, not executed | AppleUtils.ProgressNeverShownAsWritten | AppleUtils.ChunkEdit |
| bot/providers/apple_utils.py:154 | `time` is not imported, so the fallback name raises NameError | title `???` | name the zip `Apple_Music_{now}` | high, not executed | AppleUtils.BlankTitleRaisesAsWritten | AppleUtils.SafeNameNotBlank |
| bot/providers/apple_utils.py:126 | `process.returncode` is read without awaiting `process.wait()`, so it can still be None | a successful run whose exit status has not yet been collected | decide on the exit status | medium, not executed | AppleUtils.UnreapedRunFailsAsWritten | AppleUtils.DownloaderResultAfterWait |
| bot/helpers/message.py:153-156 | after a non-FloodWait exception, or for an unknown `itype`, `return msg` raises UnboundLocalError | a `text` send that fails with a timeout; `itype='gif'` | return None | high, not executed | Message.SendFailureAsWritten | Message.SendMessageRetries |
| bot/providers/apple_metadata.py:123 | `base64` is not imported, so every picture block raises NameError and is skipped | a FLAC file whose only picture is a front-cover `metadata_block_picture` | write that cover and return its path | high, not executed | AppleMetadata.FrontCoverBlockLostAsWritten | AppleMetadata.CoverFromBlocks |
