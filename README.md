# media_tool, modelled in Dafny

media_tool is a command-line organiser for photo collections. It walks a
source directory and sorts the entries into images, videos and audio by file
extension. For every image it works out a dated place,
`[model alias/]YYYY/MM/<file name>`, trying three strategies in turn:

1. the EXIF capture time (with the camera model's alias);
2. the Unix time inside a WeChat export name `mmexport1XXXXXXXXX`;
3. a time stamp written in the file name (`20060102_150405` or
   `2006-01-02 15.04.05`).

It then settles what to do when that place is taken: skip, overwrite, or
rename with a `_new_<timestamp>` suffix. Finally it copies or moves the file,
asking for confirmation on stdin unless told "yes to all". In "together" mode
it first gathers every image's target under the destination directory, asks
once, and then processes the whole map.

The model covers all of `main.go` except what "## Left out" lists. It is split into modules:

- `Wrappers`: `Option` and `Result`.
- `Text`: the parts of Go's `strings` and `strconv` that main.go uses:
  Trim, TrimSpace, TrimSuffix, ToLower, and decimal digits.
- `Shapes`: the fixed-length regexps as sequences of character classes, and
  the leftmost match.
- `Calendar`: time.Parse with the three layouts, time.Format of the year,
  the month and the stamp, and time.Unix to a local date.
- `Paths`: filepath.Ext, Base and Join, and `getFileExtension`.
- `Settings`: the flags of one run (`Config`).
- `Resolver`: `readExif`, `getTagString`, `matchWxExport`, `matchRegex` and
  `processImage`.
- `Conflict`: `checkExist` and `generateNewFileName`.
- `Classify`: the three tables and the body of `walk`.
- `Batch`: `askForConfirmation`, `processOneFile`, `processFiles` and the
  `mediaTool` loop. This is a class `MediaTool` whose fields are the set of
  existing paths, the remaining stdin lines, `todoMap`, and the transfers
  and errors recorded so far.

The environment becomes explicit data:

- **Filesystem:** the set of existing paths, plus two oracles saying which
  directory creations and which transfers the operating system refuses.
- **EXIF:** the decoded EXIF tags of each file.
- **Time zone:** a fixed offset from UTC.
- **Clock:** the clock reading.
- **stdin:** a script of lines.
- **Map order:** the order in which Go's map iteration visits `regexTime`
  for each file.

The model follows the code as written in these places:

- In interactive mode the file goes to the resolved path itself, relative to
  the working directory. The destination directory is not prefixed
  (main.go:169); only together mode joins it (main.go:162).
- `checkExist` looks up that same relative path (main.go:155), not the path
  under the destination.
- `regexTime` is a Go map, so the order in which the patterns are tried is not fixed
  (main.go:366). The model takes the order as a parameter and proves that
  it matters only when both patterns match.
- Both the export-name regexp and the time regexps are matched against the
  whole path, directories included (main.go:346, main.go:370). The rest of
  the model follows suit.
- A camera model missing from `modelAliasMap` gives an empty alias, so no
  alias directory (main.go:321). The raw model name is not used.
- A capture time or a file-name stamp that fails to parse is not an error.
  The zero time is used, giving `0001/01` (main.go:328, main.go:375).
- The `dry` and `rename` flags are parsed but never consulted
  (main.go:64-65).
- When `checkExist` refuses a file, main.go overwrites `newPath` with `""`
  before logging it (main.go:155-157). The model records the refusal as
  `Skipped(file)`, naming the image.

## Model

| member | source | states |
|---|---|---|
| Text.Trim | main.go:338-341 | strings.Trim / TrimFunc returns the slice of s between a maximal leading and a maximal trailing run of cut characters, and that slice neither begins nor ends with one |
| Text.TrimPadded | main.go:203 | trimming `p + x + q`, where p and q are all cut characters and x begins and ends with a kept one, gives back exactly x |
| Text.TrimmedAlready | main.go:203 | a string that begins and ends with a kept character is unchanged by trimming |
| Text.TrimSpaceExact | main.go:203 | strings.TrimSpace removes exactly the longest leading and the longest trailing run of white space: the result is the slice of the line between them, and it neither begins nor ends with white space |
| Text.ToLower | main.go:203 | strings.ToLower keeps the length and maps each character to its lower-case form, position by position |
| Text.Decimal | main.go:330-331 | time.Format's zero-padded field is digits only, at least as wide as the field, and its value is the number |
| Text.TrimSuffix | main.go:282 | when s ends with the suffix the result followed by the suffix is s; otherwise the result is s |
| Text.DecimalOfNum | main.go:330-331 | printing the value of a run of digits with the run's width (time.Format's zero padding) gives the run back |
| Text.DecimalWidth | main.go:330-331 | a value below 10^w is printed with exactly w digits |
| Shapes.Leftmost | main.go:346 | FindStringSubmatch on a fixed-length regexp: the index returned is a match and no earlier index matches; None only when no index matches |
| Shapes.DigitsInWindow | main.go:57-58 | the `\d` positions of a matched window hold ASCII digits |
| Calendar.Parse | main.go:328 | time.Parse succeeds exactly when the text has the layout's shape and its fields name a valid date and time, and then yields those fields |
| Calendar.YearMonthOfParse | main.go:328-331 | the "2006" and "01" fields formatted from `tm, _ := time.Parse(...)` are the year and month digits written in the text when it parses, "0001"/"01" when it does not |
| Calendar.ParsedYearMonth | main.go:375-378 | a parsed time's year and month print back as the digits they were read from |
| Calendar.ZeroYearMonth | main.go:328-331 | the zero time formats as "0001" and "01" |
| Calendar.FormatYear | main.go:330 | the "2006" field has at least four characters, and for a non-negative year is digits whose value is the year |
| Calendar.YearMonthOf | main.go:328-331 | the year and month segments of a parse are the written digits, or 0001/01 |
| Calendar.FormatMonth | main.go:331 | the "01" field of a month is two digits whose value is the month |
| Calendar.StampDigits | main.go:283 | for a four-digit year the "20060102150405" stamp is fourteen digits |
| Calendar.StampStartsWithYear | main.go:283 | the "20060102150405" stamp begins with the year field, and ten more characters follow it |
| Calendar.StampHasNoDotOrSlash | main.go:283 | the stamp contains neither '.' nor '/' for any year |
| Calendar.LocalDate | main.go:355 | time.Unix in a zone at a fixed offset: the local date's day number n satisfies n*86400 <= unix + offset < (n+1)*86400, and the date is a valid calendar date |
| Calendar.DayNumberInjective | main.go:355 | distinct valid dates have distinct day numbers, so the local date is the only one containing the instant |
| Paths.Ext | main.go:281 | filepath.Ext is empty exactly when the final element has no '.'; otherwise it starts with '.', has no other '.' and no '/' |
| Paths.ExtOfSuffix | main.go:281 | a dot-led suffix with no further '.' or '/' is the extension of any path ending in it |
| Paths.Base | main.go:333 | filepath.Base is never empty; it is "." for "", "/" for a path of slashes, and the final element for a path that does not end in '/' |
| Paths.ExtName | main.go:429-430 | the extension without its dot has no '.' or '/', is empty exactly when the final element has no '.' or the path ends in '.', and is otherwise the text after the last '.' |
| Paths.DirPrefixAndBase | main.go:333 | a path not ending in '/' is its directory part followed by its base, and the base has no '/' |
| Paths.Join | main.go:335 | filepath.Join is empty exactly when every element is empty |
| Paths.JoinFour | main.go:335 | joining an optional alias and three non-empty segments gives them separated by '/', the alias and its '/' dropped when empty |
| Paths.FileExtension | main.go:428-432 | getFileExtension is empty exactly when the final element has no '.' or the path ends in '.'; otherwise it is the text after the last '.', lower-cased, with no '.', '/' or upper-case letter |
| Resolver.GetTagString | main.go:338-341 | getTagString drops the maximal runs of '"' at both ends and nothing else |
| Resolver.GetTagStringUnquotes | main.go:338-341 | quotes inside the value survive: only the runs at the two ends are removed |
| Resolver.ModelAlias | main.go:321 | a listed model maps to its alias; any other model to "" |
| Resolver.ReadExif | main.go:305-336 | readExif is "" exactly when the file has no decodable EXIF with both Model and DateTimeOriginal |
| Resolver.ReadExifPath | main.go:316-335 | with both tags the path is `[alias/]YYYY/MM/base`, YYYY/MM being the digits of the unquoted capture time when it parses and 0001/01 when it does not |
| Resolver.ParseInt64 | main.go:350 | strconv.ParseInt succeeds only on digits, with their decimal value |
| Resolver.WxGroup | main.go:344-350 | the group of a `mmexport(1\d{9})` window is ten digits whose value lies in [10^9, 2*10^9) and ParseInt accepts it |
| Resolver.MatchWxExport | main.go:343-362 | matchWxExport is "" exactly when the path has no `mmexport1` + nine digits window |
| Resolver.WxPathAt | main.go:349-359 | at a `mmexport(1\d{9})` window ParseInt always succeeds, so the path built is never empty and the error branch is unreachable |
| Resolver.MatchWxExportPath | main.go:346-359 | at the leftmost window the group is ten digits worth between 10^9 and 2*10^9, and the path is YYYY/MM/base of that Unix time's local date |
| Resolver.MatchRegex | main.go:364-387 | matchRegex is "" exactly when no entry of regexTime has a window in the path |
| Resolver.RegexPathAt | main.go:373-382 | the path from a window is YYYY/MM/base with the window's own year and month digits, or 0001/01 when it does not parse |
| Resolver.MatchRegexFirst | main.go:366-383 | the first entry in iteration order with a window decides, through its leftmost window |
| Resolver.MatchRegexFinds | main.go:364-387 | in either map order, a path is found exactly when one of the two patterns has a window |
| Resolver.MatchRegexOrderIrrelevant | main.go:366 | when at most one pattern has a window, the map's iteration order does not change the result |
| Resolver.PatternShapes | main.go:56-59 | each regexp of regexTime describes exactly the shape of its own layout, and the two entries differ |
| Resolver.ProcessImage | main.go:286-303 | processImage fails exactly when all three strategies give ""; otherwise it returns the first non-empty answer in the order EXIF, export name, time patterns |
| Conflict.GenerateNewFileName | main.go:280-284 | the new name is five characters plus the stamp longer than the old one |
| Conflict.NewNameParts | main.go:280-284 | the new name is the name up to its extension, then "_new_" and the stamp, then the extension |
| Conflict.StemIsPrefix | main.go:282 | strings.TrimSuffix(f, filepath.Ext(f)) is the part of f before its extension |
| Conflict.InsertBeforeExtension | main.go:280-284 | inserting a non-empty tag without '.' or '/' before a name's extension keeps the extension, the directory and the stem, and changes the name |
| Conflict.NewNameKeepsExtensionAndDirectory | main.go:280-284 | the new name has the same extension and directory as the old one, starts with the same stem, and differs from it |
| Conflict.CheckExist | main.go:245-256 | an absent path, or any path with overwrite, is kept; an existing one is refused exactly when neither overwrite nor no-skip is set; otherwise it is renamed with the clock reading |
| Conflict.CheckExistStaysPut | main.go:245-256 | whatever checkExist returns lies in the same directory and has the same extension as its argument |
| Classify.Lookup | main.go:406-414 | indexing a Go map[string]bool is true exactly for a key present with value true |
| Classify.TablesAdmit | main.go:24-48 | picTypes admits exactly jpg, jpeg, png, gif and bmp; videoTypes exactly its nine extensions; AudioTypes only mp3 |
| Classify.TablesDisjoint | main.go:24-48 | no extension is admitted by two tables |
| Classify.FlacAndWavAreNotAudio | main.go:32-36 | flac and wav files, in any case, are never put in the audio list |
| Classify.SelectedMembers | main.go:400-416 | a path is selected exactly when some entry with that path is a file the filter accepts |
| Classify.EntryInOneList | main.go:404-416 | no entry passes two of the three filters |
| Classify.DisjointSelections | main.go:404-416 | two filters that never both accept an entry never both select a path, when paths are distinct |
| Classify.ListsDisjoint | main.go:400-416 | when the walk yields each path once, no path is in two of the three lists |
| Classify.Walk | main.go:395-419 | walk's callback over all entries builds, in walk order, the paths of the files whose lower-cased extension each table admits; directories are passed over |
| Batch.Reply | main.go:203-209 | a line is a yes or a no exactly when, trimmed and lower-cased, it is one of "y", "yes", "n", "no"; it is a yes exactly when it is "y" or "yes" |
| Batch.ReplyIgnoresSpace | main.go:203 | white space around a word, the newline included, does not change the reply |
| Batch.NormalizedWord | main.go:203 | a word with no surrounding space is compared in lower case |
| Batch.AnswerWords | main.go:205-209 | for every response: a yes exactly for "y" and "yes", a no exactly for "n" and "no", neither for every other response |
| Batch.ReplyOf | main.go:203-209 | for every word without surrounding white space: a yes exactly when its lower-case form is "y" or "yes", a no exactly when it is "n" or "no", and otherwise neither, so the prompt is repeated |
| Batch.ReplyYes | main.go:203-206 | example: "YES" and "y" are a yes |
| Batch.ReplyNo | main.go:203-208 | example: "No" and "N" are a no |
| Batch.ReplyNeither | main.go:203-210 | example: "q" is neither |
| Batch.Replies | main.go:198-203 | one reply per line of input, each the reply of that line |
| Batch.FirstAnswer | main.go:195-210 | reading from index i, the result is the first reply that is a yes or a no and the index just past it, every reply in between being neither; None, at the end of the input, only when no remaining reply is a yes or a no |
| Batch.FirstAnswerAt | main.go:195-210 | the first yes-or-no reply decides, and reading stops just past it |
| Batch.Ask | main.go:192-211 | askForConfirmation reads within the input, and reads all of it when it finds no answer |
| Batch.AskMeans | main.go:195-210 | the answer is that of the first line that is a yes or a no, every earlier line being neither; None only when no line is a yes or a no (where main.go calls log.Fatal) |
| Batch.AskFirst | main.go:195-210 | whichever line is the first yes or no, askForConfirmation returns its answer and has read exactly the lines up to and including it |
| Batch.AskForConfirmation | main.go:192-211 | the loop returns the answer of the first yes-or-no line and the number of lines read, which is what Ask specifies |
| Batch.RegexOrder | main.go:366 | the order used for each file is one of the two orders the map can be iterated in |
| Batch.ProcessImages | main.go:150 | the resolver of a run is processImage applied to each file with its EXIF tags and map order |
| Batch.MakeSetup | main.go:140-190 | a run's setup carries the flags and the clock reading, and its resolver is processImage |
| Batch.Candidate | main.go:150-159 | a file's candidate fails with Unresolved exactly when processImage fails; any other failure is Skipped; success implies processImage succeeded |
| Batch.CandidateChecks | main.go:155-158 | for an image processImage resolves, the candidate succeeds exactly when checkExist does, with checkExist's path, and a refusal is logged as Skipped |
| Batch.CandidateIsRelative | main.go:155-169 | in interactive mode the path handed to processOneFile is processImage's path or its renamed form, never joined with the destination |
| Batch.CandidateRelative | main.go:155-169 | a transfer of an image to its candidate goes to processImage's path or its renamed form |
| Batch.PlanEntries | main.go:146-162 | todoMap holds exactly the images whose candidate succeeds, each mapped to the destination joined with its candidate |
| Batch.PlanStep | main.go:149-162 | one more image extends todoMap and the log by that image's result alone |
| Batch.Plan | main.go:146-162 | every key of todoMap is an image of the walk |
| Batch.PlanFailures | main.go:149-159 | at most one error is logged per image |
| Batch.PlanFailuresLogged | main.go:149-159 | an error is logged exactly when some image's candidate is that error |
| Batch.LoggedFor | main.go:150-158 | an error naming a file is logged exactly when that file is an image whose candidate is that error |
| Batch.TogetherLogs | main.go:150-158 | Unresolved(file) is logged exactly when processImage fails on an image; Skipped(file) exactly when checkExist refuses it |
| Batch.PlanUnderDestination | main.go:162 | with a destination directory every todoMap target starts with the destination as given followed by '/' (the join without Clean) |
| Batch.ModeOf | main.go:228-241 | "copy" selects a copy, "move" a move, and any other mode neither |
| Batch.After | main.go:229-240 | after a transfer a path exists exactly when it is the destination, or it existed before and is not the source of a move |
| Batch.UntouchedStays | main.go:213-220 | a path that no move takes as its source still exists after any sequence of transfers |
| Batch.OnlyDestinationsAppear | main.go:213-220 | a path that exists after a sequence of transfers, and did not before, is the destination of one of them |
| Batch.CopiesKeep | main.go:229-234 | copies lose no path, and every copy's destination exists afterwards |
| Batch.Entry | main.go:215-219 | one processOneFile call with its error logged: stdin is untouched, an error is logged exactly when processOneFile fails, and a transfer is recorded exactly when it succeeds in copy or move mode |
| Batch.EntryParts | main.go:223-243 | a success in copy or move mode records exactly its one transfer and updates the disk as After says; a failure logs exactly its one error and changes nothing else |
| Batch.EntryRecords | main.go:215-219 | the records only grow, by at most the one transfer from source to dest |
| Batch.EntryAgrees | main.go:223-243 | processOneFile depends on the flags only through the mode, and on the state only through the disk |
| Batch.HandledStep | main.go:214-220 | processing one more key keeps every processed key either transferred or logged, never both, and no key twice |
| Batch.HandledTransferred | main.go:214-220 | a key transferred is recorded once, with its own destination, and is not logged |
| Batch.HandledLogged | main.go:214-220 | a key logged is logged once, against its own destination, and is not transferred |
| Batch.FatesStep | main.go:214-220 | processing one more key: a key whose directory cannot be made, or whose copy or move is refused, is logged; a key that would succeed on the starting disk is transferred, since no earlier key moved its source |
| Batch.ProcessedStep | main.go:214-220 | one more iteration of processFiles' loop keeps the bookkeeping: records extended by that key's result, disk equal to the starting disk after the transfers made, each transfer's source found at its turn |
| Batch.ProcessedAll | main.go:213-221 | once every key is processed, processFiles' specification holds |
| Batch.KeyFate | main.go:213-243 | for every key of the map: when its directory cannot be made or its copy or move is refused, it is logged and not transferred; when it would succeed on the disk processFiles starts from, it is not logged and, in copy or move mode, transferred to its value |
| Batch.MissingSourceLogged | main.go:213-243 | in copy or move mode a key whose source is neither on the starting disk nor any key's destination is logged and never transferred, whatever the order |
| Batch.SourceIsDestination | main.go:229-240 | a transfer whose source was not on the starting disk takes it from the destination of an earlier transfer |
| Batch.SourcesFoundStep | main.go:229-240 | a transfer made from a source on the current disk keeps every transfer's source found at its turn |
| Batch.ProcessFilesModeNone | main.go:228-241 | in a mode other than copy or move processFiles transfers nothing and leaves the disk as it was |
| Batch.CopyKeepsEverything | main.go:229-234 | in copy mode processFiles loses no existing path, and every destination it copied to exists afterwards |
| Batch.PassShape | main.go:149-174 | an interactive pass either logs the image's resolution error or skip, or moves stdin past the answer and then processes the image at its candidate or not |
| Batch.PassEntry | main.go:164-172 | a pass that transfers something processed its image at its candidate, after the answer |
| Batch.PassDeclined | main.go:164-167 | when the first yes-or-no line is a no, the pass only consumes stdin up to that line |
| Batch.PassExtends | main.go:149-174 | a pass keeps the earlier transfers and errors and adds at most one transfer |
| Batch.PassTransfersImage | main.go:164-172 | a transfer a pass makes is of its own image, to that image's candidate |
| Batch.PassModeNone | main.go:228-241 | in a mode other than copy or move a pass transfers nothing and leaves the disk alone |
| Batch.PassesExtend | main.go:149-176 | the interactive loop keeps the earlier transfers and errors |
| Batch.PassesTransferImages | main.go:149-176 | every transfer of the interactive loop is of an image of the walk, to processImage's path or its renamed form |
| Batch.PassesModeNone | main.go:228-241 | in a mode other than copy or move the interactive loop transfers nothing and leaves the disk alone |
| Batch.YesStepAccounts | main.go:149-174 | with yes to all a pass reads no input, goes on, and logs, transfers or (in a mode that transfers nothing) passes its image |
| Batch.YesAccountsForAll | main.go:149-176 | with yes to all the loop reads no input, never stops early, and every image of the walk is logged as unresolved or skipped, transferred, or logged as failed (or the mode transfers nothing) |
| Batch.AbortOnlyWhenStdinRunsOut | main.go:164-200 | the loop stops early only without yes to all, and only once stdin is exhausted |
| Batch.AnsweringNo | main.go:164-167 | when every line of stdin is a no, the loop transfers nothing and leaves the disk alone |
| Batch.YesStepAgrees | main.go:164-172 | a pass answered by a yes line does what the same pass does with yes to all |
| Batch.AnsweringYes | main.go:164-172 | with a yes line for each image, the loop never stops early and makes the same transfers, errors and disk as with yes to all |
| Batch.TogetherDeclined | main.go:179-182 | in together mode a first yes-or-no line that is a no ends the run as declined, transferring and logging nothing more |
| Batch.TogetherAborted | main.go:179-200 | together mode aborts only without yes to all, when stdin runs out with no yes-or-no line, and then transfers nothing |
| Batch.TogetherConfirmed | main.go:179-184 | in together mode a first yes-or-no line that is a yes hands the whole todoMap to processFiles, from the stdin past that line |
| Batch.MediaTool.ProcessOneFile | main.go:223-243 | processOneFile succeeds exactly when OneFileOk holds on the current disk; a success in copy or move mode records the transfer and updates the disk as After says; anything else changes nothing |
| Batch.MediaTool.ProcessEntry | main.go:215-219 | one processFiles iteration changes the state exactly as Entry says |
| Batch.MediaTool.ProcessFiles | main.go:213-221 | processFiles leaves the state FilesProcessed describes: every transfer found its source on the disk at its turn, and KeyFate, MissingSourceLogged, ProcessFilesModeNone and CopyKeepsEverything state the consequences |
| Batch.MediaTool.Confirm | main.go:164-166 | a confirmation returns Ask's answer and consumes exactly the lines Ask read |
| Batch.MediaTool.Record | main.go:149-162 | a together-mode pass adds the image's joined target to todoMap or logs its error, transferring nothing |
| Batch.MediaTool.RecordAll | main.go:149-176 | in together mode, todoMap and the log after the loop are the plan and the errors of the images in walk order |
| Batch.MediaTool.TransferNow | main.go:150-173 | an interactive pass changes the state exactly as Pass says, and reports an abort exactly when Pass does |
| Batch.MediaTool.TransferAll | main.go:149-176 | the interactive loop ends in the state PassesFrom gives, aborted exactly when PassesFrom stops early |
| Batch.MediaTool.ProcessTogether | main.go:177-185 | together mode's ending is as TogetherEnd says: yes to all or a yes runs processFiles; a no declines and a run-out stdin aborts, both changing nothing but stdin |
| Batch.MediaTool.Run | main.go:140-190 | in together mode todoMap is the plan and the run ends as TogetherEnd says from the state with the plan's errors logged; otherwise the run is the interactive loop PassesFrom over the walk's images, never Declined |

## Left out

- File I/O: `os.Open`, `os.Stat`, `os.MkdirAll`, `os.Rename` and the byte
  copy in `copyFile` are not modelled. The disk is a set of paths. Directory
  creation and transfers fail according to two oracles, keyed by the
  destination path instead of its parent directory, because filepath.Dir is
  not modelled.
- `walk`'s `os.Stat` check and WalkDir errors are left out. The walk is
  given as a sequence of entries in walk order.
- EXIF decoding (`exif.Decode`, `x.Get`, `tag.String`) is foreign code. Each
  file's decoded Model and DateTimeOriginal texts are a parameter.
- `main` and the cli flag parsing are left out, and so are the log messages
  and the progress output. The model records the errors logged as values,
  not as text.
- stdin is a script of complete lines. A partial last line, which Go returns
  together with io.EOF (then log.Fatal), is not distinguished from an
  exhausted input.
- filepath.Join's Clean step is left out. Join keeps the non-empty elements
  separated by '/', which is what Clean gives for main.go's elements as long
  as they contain no `.`, `..` or doubled slashes and do not end in '/'. A
  destination such as `out/` or `/` joins to `out//2023/...` or `//2023/...`
  in the model, where Go cleans the result to `out/2023/...` or `/2023/...`.
  Batch.PlanUnderDestination is stated for this un-cleaned join.
- Calendar.Parse: Go's time.Parse accepts some text the model's exact-shape
  check rejects, such as fractional seconds after the seconds field. These
  leniencies are left out. The three layouts are matched character for
  character.
- Text.ToLower: case folding beyond ASCII is left out.
- Calendar.LocalDate: the local zone is a fixed offset from UTC. Daylight
  saving and historical zone rules are left out.
- Conflict.GenerateNewFileName: time.Now() is read once per run. A clock
  that moves between files is not modelled.
- Resolver.ParseInt64: sign handling and the syntax and range errors of
  strconv.ParseInt are not modelled beyond unsigned decimal text, which is
  all the `1\d{9}` group can hold.
- The order of Go's map iteration is a parameter: a per-file order for
  `regexTime`, and an arbitrary choice of the next key in processFiles.
- The disk set does not model aliasing between different spellings of one
  path, such as `a/./b` and `a/b`.
- Batch.MediaTool.Run: the Unresolved and Skipped errors are logged with
  the image's name. The exact log line, which for a refusal shows the empty
  path, is not modelled.
- Batch.MediaTool.Confirm: main.go:193 makes a new bufio.Reader for each
  prompt. With piped stdin that reader can buffer lines beyond the answer,
  and they are lost when it is dropped. The model consumes exactly the
  lines up to the answer, as line-at-a-time input such as a terminal does.
- Batch.MediaTool.ProcessFiles: the order in which processFiles visits the
  keys is left open. A key whose source is missing from the starting disk
  but is another key's destination succeeds or fails depending on whether
  that other key was transferred first. For such a key the model promises
  only that a transfer finds its source on the disk as it is at that point
  (SourcesFound). KeyFate and MissingSourceLogged decide every other key.
