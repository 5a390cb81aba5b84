# Flask_home exercises: downloader naming and store, song list, password hashing

A Dafny model of the three pieces of the Flask_home exercises that hold logic
of their own:

- **Image downloader** (`Desktop/Flask_home/task_home4.py`). From a URL the
  downloader derives a per-host directory name and a file name by string
  surgery: it removes every `https://`, splits on `/`, takes the first piece
  with each `.` replaced by `_` as the directory, and takes the last piece as
  the file. It then creates `base/dirname` if that path does not exist and
  writes the payload to `base/dirname/filename`, replacing any earlier file.
  The module defines `download_image` three times. The thread, process and
  asyncio copies differ in their base directory (`task_/threads`,
  `task_/processes`, `task_/async`) and, for asyncio, in the fetch library
  and in when the file is opened. Module `UrlNaming` models the naming
  once. Module `ImageStore` models the filesystem as a class `FileSystem`
  with a set of directories and a map from paths to bytes. A path is a list
  of components, and `os.path.join` drops an empty component. The store step
  is the method `Store`, and the batch `main` is the loop `RunBatch`. Both are
  proved against the pure functions `StoreStep` and `Batch`, and the
  properties are lemmas about those functions.
- **Song list** (`Desktop/Flask_home/task_home5.py`). The module-level `video`
  list is a `seq<Song>` field of the class `Catalog`. Each lookup computes
  the comprehension `[song for song in video if song.id == song_id]` as a
  loop (`Matches`), and its first entry is the song the handler works on.
  `update_song` overwrites name, author, description and genre of that song
  in place; its id stays. `delete_song` calls `video.remove(song)`, which
  removes the first element equal to the song. That is always the first
  match, because every earlier song has another id.
- **Password hashing and sign-up** (`Desktop/Flask_home/task_home3.py`).
  `hash_password` returns the 32-byte salt followed by the derived key.
  `check_password` splits the stored value at byte 32, with Python's slice
  clamping for short values, and recomputes the key. PBKDF2-HMAC-SHA256
  (section 5.2 of RFC 8018) is a parameter of type `Kdf`: any function with
  32-byte keys. The salt from `os.urandom(32)` is an input.
  `str.encode('utf-8')` is modelled (`Utf8`). The sign-up handler is
  `UserDb.Register` over the `EXAMPLE_DB` dictionary. The form is a map from
  field names to data, and "POST that validates" is a boolean input.

Two consequences of the code are worth noting:
- The directory name replaces only `.` (task_home4.py:40). Other
  non-alphanumeric characters (`-`, `:`, and so on) are kept.
- The record keeps every form field except `name` and `password`
  (task_home3.py:44-48). It therefore holds `password_confirmation` in plain
  text, and `csrf_token` as well.

## Model

| member | source | states |
|---|---|---|
| UrlNaming.Replace | Desktop/Flask_home/task_home4.py:39-40 | `str.replace` keeps the length when pattern and replacement have equal length, and never grows the text when the replacement is shorter; `ReplaceAbsent`, `ReplaceLeading` and `ReplaceSkip` together fix its value for every string, and `ReplaceChar` for a one-character pattern |
| UrlNaming.ReplaceSkip | Desktop/Flask_home/task_home4.py:39 | a prefix in which no occurrence starts is copied unchanged and the scan goes on after it |
| UrlNaming.StripScheme | Desktop/Flask_home/task_home4.py:39 | removing `https://` never lengthens the URL; `StripLeadingScheme` gives its value for a URL with one leading scheme |
| UrlNaming.ReplaceAbsent | Desktop/Flask_home/task_home4.py:39 | `str.replace` leaves a string without the pattern unchanged |
| UrlNaming.ReplaceLeading | Desktop/Flask_home/task_home4.py:39 | a leading occurrence is replaced and the scan resumes right after it |
| UrlNaming.ReplaceChar | Desktop/Flask_home/task_home4.py:40 | replacing one character by another keeps the length and maps each `c` to `d`, leaving every other character |
| UrlNaming.Split | Desktop/Flask_home/task_home4.py:39 | `split('/')` always yields at least one piece and no piece contains the separator |
| UrlNaming.JoinSplit | Desktop/Flask_home/task_home4.py:39 | joining the pieces with the separator gives the string back |
| UrlNaming.SplitJoin | Desktop/Flask_home/task_home4.py:39 | splitting a join of separator-free pieces gives the pieces back |
| UrlNaming.FirstSep | Desktop/Flask_home/task_home4.py:40 | the first separator position: no separator before it |
| UrlNaming.AfterLastSep | Desktop/Flask_home/task_home4.py:40 | the position after the last separator: no separator after it |
| UrlNaming.FirstPiece | Desktop/Flask_home/task_home4.py:40 | `paths[0]` is the text before the first `/` |
| UrlNaming.LastPiece | Desktop/Flask_home/task_home4.py:40 | `paths[-1]` is the text after the last `/` |
| UrlNaming.DeriveNames | Desktop/Flask_home/task_home4.py:39-40 | the directory name has no `.` and no `/`; the file name has no `/`; the derivation is total |
| UrlNaming.DeriveNamesSpec | Desktop/Flask_home/task_home4.py:39-40 | the directory name is the stripped URL up to its first `/`, with `.` mapped to `_` character by character; the file name is the text after the last `/` |
| UrlNaming.SingleSegment | Desktop/Flask_home/task_home4.py:39-40 | without a `/`, directory and file are named from the same single piece |
| UrlNaming.StripLeadingScheme | Desktop/Flask_home/task_home4.py:39 | a URL `https://` + rest with no other `:` loses exactly the scheme |
| UrlNaming.NamesOfPieces | Desktop/Flask_home/task_home4.py:39-40 | the names of `https://` + pieces joined by `/` are the first piece underscored and the last piece |
| UrlNaming.ExampleImgur | Desktop/Flask_home/task_home4.py:30 | `https://i.imgur.com/vfiefI0.jpeg` gives (`i_imgur_com`, `vfiefI0.jpeg`) |
| UrlNaming.ExampleHeaderComment | Desktop/Flask_home/task_home4.py:3 | `https://example/images/image1.jpg` gives the file `image1.jpg` (directory `example`) |
| ImageStore.Child | Desktop/Flask_home/task_home4.py:42 | `os.path.join(p, name)` is `p` for an empty `name`, and otherwise `p` with `name` as one more component |
| ImageStore.DestDir | Desktop/Flask_home/task_home4.py:42 | the host directory is `base/dirname`, or `base` itself for an empty directory name |
| ImageStore.DestPath | Desktop/Flask_home/task_home4.py:45 | the file lies at most two levels below `base`, and is exactly `base/dirname/filename` for plain names |
| ImageStore.StoreStep | Desktop/Flask_home/task_home4.py:37-46 | one `download_image` below an existing base directory: fails to fetch exactly when the request raised, never removes a directory, and writes nothing unless it stores; `StoreStepEffect`, `StoreStepFrame`, `StoreStepFiles`, `StoreStepIdempotent`, `StoreStepWellFormed` and `StoreStepPlain` carry the rest |
| ImageStore.Batch | Desktop/Flask_home/task_home4.py:48-56 | the downloads in list order: one outcome per URL and no directory removed; `BatchOutcomes`, `BatchFiles`, `BatchWellFormed`, `BatchAllStored`, `LastWriterWins` and `BatchLeavesOthers` carry the rest |
| ImageStore.FileSystem.constructor | Desktop/Flask_home/task_home4.py:19 | a filesystem holding only the script's directory |
| ImageStore.FileSystem.MakeDirIfAbsent | Desktop/Flask_home/task_home4.py:42-43 | the directory is added only when the path does not exist; files are unchanged; the invariant is kept |
| ImageStore.FileSystem.Store | Desktop/Flask_home/task_home4.py:37-46 | the new disk and outcome are `StoreStep` of the old disk; directories are never removed; the invariant is kept |
| ImageStore.FileSystem.RunBatch | Desktop/Flask_home/task_home4.py:48-56 | the new disk and the outcomes are `Batch` of the old disk over the URLs in order |
| ImageStore.StoreStepEffect | Desktop/Flask_home/task_home4.py:42-46 | afterwards the host directory exists (unless the path is a file); it is created only if absent; a stored file holds exactly the payload |
| ImageStore.StoreStepFrame | Desktop/Flask_home/task_home4.py:42-46 | at most one directory is added and only the one file path is written; every other file is unchanged |
| ImageStore.StoreStepFiles | Desktop/Flask_home/task_home4.py:45-46 | the files afterwards are the old files with the payload written at the derived path, or unchanged |
| ImageStore.StoreStepIdempotent | Desktop/Flask_home/task_home4.py:42-46 | repeating the store step with the same payload gives the same disk and outcome |
| ImageStore.StoreStepWellFormed | Desktop/Flask_home/task_home4.py:42-46 | files and directories stay disjoint, every file stays in an existing directory, no directory is removed |
| ImageStore.StoreStepPlain | Desktop/Flask_home/task_home4.py:42-46 | with plain names and nothing in the way below the base, the step stores and leaves nothing in the way |
| ImageStore.BatchOutcomes | Desktop/Flask_home/task_home4.py:51-56 | one outcome per URL; a download fails to fetch exactly when its request raised, and the others still run |
| ImageStore.BatchWellFormed | Desktop/Flask_home/task_home4.py:51-56 | a batch keeps the disk well formed and removes no directory |
| ImageStore.BatchFiles | Desktop/Flask_home/task_home4.py:51-56 | the files after a batch are the stored payloads written in order over the old files |
| ImageStore.BatchAllStored | Desktop/Flask_home/task_home4.py:51-56 | over an existing, clean base, with plain names and every request returning a payload, every download is stored |
| ImageStore.BatchStoresEveryUrl | Desktop/Flask_home/task_home4.py:51-56 | after such a batch every URL in the list has a file at its derived path |
| ImageStore.BatchFilesExist | Desktop/Flask_home/task_home4.py:90-96 | every stored URL of a batch has a file at its path afterwards |
| ImageStore.LastWriterWins | Desktop/Flask_home/task_home4.py:133-137 | a stored URL's file holds its payload when no later URL stored to the same path |
| ImageStore.BatchLeavesOthers | Desktop/Flask_home/task_home4.py:45-46 | a path no stored URL derives keeps its old file, or stays absent |
| ImageStore.SameRelativePath | Desktop/Flask_home/task_home4.py:73-82 | every downloader copy puts a URL at the same relative path below its own base |
| ImageStore.StrategiesDisjoint | Desktop/Flask_home/task_home4.py:105-113 | the threads, processes and asyncio copies never write to the same file |
| SongList.Matching | Desktop/Flask_home/task_home5.py:50 | every entry of the comprehension has the id, and it is no longer than the list; `MatchingMembers`, `MatchingCount` and `MatchingConcat` pin it down |
| SongList.MatchingMembers | Desktop/Flask_home/task_home5.py:50 | the comprehension holds exactly the songs of the list that have the id: no other song, and none left out |
| SongList.MatchingCount | Desktop/Flask_home/task_home5.py:50 | the comprehension has one entry per position of the list that holds the id |
| SongList.FirstMatch | Desktop/Flask_home/task_home5.py:50-54 | none exactly when no song has the id; otherwise the least position holding the id |
| SongList.MatchingHead | Desktop/Flask_home/task_home5.py:51-54 | the comprehension is empty exactly when nothing matches; otherwise its first entry is the first match |
| SongList.MatchingConcat | Desktop/Flask_home/task_home5.py:50 | filtering distributes over concatenation |
| SongList.RemoveFirst | Desktop/Flask_home/task_home5.py:76 | `list.remove` drops exactly one element |
| SongList.RemoveFirstAt | Desktop/Flask_home/task_home5.py:76 | removing an element with no equal element before it cuts out exactly that position |
| SongList.RemoveFirstMatch | Desktop/Flask_home/task_home5.py:72-76 | `delete_song` removes exactly the first song with the id; the others keep their order |
| SongList.DeleteUnique | Desktop/Flask_home/task_home5.py:75-76 | when exactly one position held the id, no song has it after the delete, so `get_song` finds nothing |
| SongList.Retitled | Desktop/Flask_home/task_home5.py:63-66 | the retitled song keeps its own id and agrees with the new song in every other field |
| SongList.UpdateKeepsLookup | Desktop/Flask_home/task_home5.py:62-66 | the update keeps the id, so a later lookup finds the same position |
| SongList.FirstMatchSameIds | Desktop/Flask_home/task_home5.py:50 | the first match depends on the ids alone |
| SongList.AddKeepsFirstMatch | Desktop/Flask_home/task_home5.py:44 | `add_song` does not check ids: a song appended with a taken id is never the one a lookup finds |
| SongList.Catalog.constructor | Desktop/Flask_home/task_home5.py:29 | the list starts as loaded |
| SongList.Catalog.AddSong | Desktop/Flask_home/task_home5.py:42-46 | the list becomes the old list plus the song at the end; the song is returned |
| SongList.Catalog.Matches | Desktop/Flask_home/task_home5.py:50 | the loop computes the comprehension and the position of its first entry |
| SongList.Catalog.GetSong | Desktop/Flask_home/task_home5.py:48-55 | None exactly when no song has the id; otherwise a song with the id that no earlier song's id equals |
| SongList.Catalog.UpdateSong | Desktop/Flask_home/task_home5.py:57-68 | without a match: `updated` false and nothing changes; with one: only that song's four fields change, its id stays, the new song is returned |
| SongList.Catalog.DeleteSong | Desktop/Flask_home/task_home5.py:70-78 | without a match: `deleted` false and nothing changes; with one: exactly the first match is cut out and returned |
| PasswordHash.EncodeChar | Desktop/Flask_home/task_home3.py:28 | one character encodes to 1 to 4 bytes, one byte exactly for ASCII |
| PasswordHash.Utf8 | Desktop/Flask_home/task_home3.py:28 | the encoding has between one and four bytes per character |
| PasswordHash.Utf8Ascii | Desktop/Flask_home/task_home3.py:28 | an ASCII password encodes byte for byte |
| PasswordHash.StoredSalt | Desktop/Flask_home/task_home3.py:33 | `hashed[:32]` is the prefix of length min(32, len(hashed)) |
| PasswordHash.StoredKey | Desktop/Flask_home/task_home3.py:33 | `hashed[32:]` is the rest: salt and key together give the stored value |
| PasswordHash.HashPassword | Desktop/Flask_home/task_home3.py:26-30 | 64 bytes: the salt first, then the key derived from the UTF-8 password, the salt and 100 000 iterations |
| PasswordHash.CheckPassword | Desktop/Flask_home/task_home3.py:32-35 | only a 64-byte value can verify; `CheckAfterHash`, `CheckIffRehash` and `ShortNeverVerifies` carry the rest |
| PasswordHash.CheckAfterHash | Desktop/Flask_home/task_home3.py:26-35 | `check_password(p, hash_password(p))` holds for every password and every salt |
| PasswordHash.CheckIffRehash | Desktop/Flask_home/task_home3.py:32-35 | a stored value verifies exactly when it equals the hash of the password under its own first 32 bytes |
| PasswordHash.ShortNeverVerifies | Desktop/Flask_home/task_home3.py:32-35 | a stored value of 32 bytes or fewer never verifies |
| Registration.FormFields | Desktop/Flask_home/task_home3.py:44-48 | the record holds every form field except `name` and `password`, as text |
| Registration.NewRecord | Desktop/Flask_home/task_home3.py:44-53 | those fields plus `password` mapped to the hash |
| Registration.UserDb.constructor | Desktop/Flask_home/task_home3.py:24 | the dictionary starts empty |
| Registration.UserDb.Register | Desktop/Flask_home/task_home3.py:37-56 | without a valid POST nothing changes; with one, the name's entry becomes the new record with the hashed password and the handler reports it |
| Registration.RegisterFrame | Desktop/Flask_home/task_home3.py:41-53 | registration leaves every other name's entry as it was |
| Registration.RegisteredPasswordVerifies | Desktop/Flask_home/task_home3.py:49-53 | the stored `password` is a hash, and it verifies against the submitted password |

## Left out

- HTTP: `requests.get` and `aiohttp` become an input per URL. The input is the payload, or None when the request raised. `requests.get` does not raise on an error status, so an error page is stored like any payload.
- Concurrency: threads, processes and `asyncio.gather` are modelled as one loop that runs the URLs in list order. The outcome order and the interleavings are not modelled.
- Directory race: `exists` followed by `mkdir` is not atomic in the source. Two workers with the same host can both see the directory missing, and one `mkdir` then fails. The sequential model cannot show this.
- ImageStore.FileSystem.RunBatch: a failing download does not stop the batch. This holds for the thread and process copies. The asyncio `gather` instead raises the first error, and `asyncio.run` then cancels the rest. That difference is not modelled.
- The asyncio copy opens the file, which truncates it, before it reads the body. A body read that fails there leaves an empty file. The model treats each fetch as all or nothing, before anything is written.
- The filesystem is taken to be POSIX-like: case-sensitive, with `/` as the only separator. Two paths name the same file only when their components are equal strings. On a case-insensitive filesystem (the macOS and Windows defaults), `https://h/A.png` and `https://h/a.png` write the same file. There `BatchLeavesOthers` and `LastWriterWins` do not describe the program, and on Windows a `\` in the last URL piece would also separate.
- Store errors are modelled only as far as the model's own state determines them: a host path that is a file, and a file name that names a directory (`""`, `.`, `..`, an existing directory). Permission, disk-full and name-length errors are not modelled.
- The import-time creation of `task_` and its strategy directories (task_home4.py:19-27, 63-71, 105-113) is not modelled. `StoreStep`, `Batch`, `Store`, `RunBatch` and the lemmas about them require the base directory to exist. Without it, `os.mkdir` raises `FileNotFoundError` and nothing is written.
- Wall-clock timing (`time.time()`) and the console lines are not modelled.
- JSON load and save of the song list (`commit_changes`) are not modelled. Neither are templates, pydantic validation or FastAPI routing. Songs are values: the object identity of the Python list entries is represented by the position of the first match.
- PasswordHash.Utf8: Dafny's `char` cannot hold a lone surrogate. So the `UnicodeEncodeError` that `str.encode('utf-8')` raises for one (task_home3.py:28, 34) cannot arise in the model.
- ImageStore.WellFormed does not require a directory's parent to be a directory. The model reaches only trees, because `MakeDirIfAbsent` requires the parent, but a `Disk` value may describe a state `mkdir` cannot build. `StoreStep`'s `IsADirectory` and `NotADirectory` branches look only at the two paths they touch.
- PBKDF2 and SHA-256 internals and `os.urandom` are not modelled. The key derivation is a parameter with 32-byte output, and the salt is an input.
- The form class, WTForms validation, CSRF and template rendering are not modelled. The form's field names are never imported in task_home3.py, so the module would fail at import. Validity is a boolean input.
- Desktop/Flask_home/task_home6.py (ORM routes) and Desktop/Flask_home/task1.py (trivial routes) are not part of this model.
