# Rotating digests of AiBuildIp, modelled in Dafny

AiBuildIp keeps its marketing copy (hot-topic scripts, WeChat Moments 朋友圈 and
Xiaohongshu 小红书 texts, fitness snippets) in markdown files. A handful of small scripts
turn these files into mails. Each model below takes the file contents, the state file and
the server's replies as values, and returns what the script writes and sends.

- `generate_hot_topics_short_copy.py` (module `ShortCopy`) parses the numbered topic list.
  Each topic is a `<id>) <title>` line, optionally followed by 卖点 and 交付 lines. The script
  renders the list twice: as the short-copy document and as the voice-over document.
- `send_hot_topics_voiceover.py` (`HotVoiceover`) reads that voice-over document back. It picks
  the next batch in rotation and mails it; the state file is updated only after a send.
- `send_ai_paid_hot_topics_voiceover.py` (`AiPaidVoiceover`) does the same over numbered `##`
  sections.
- `send_hot_topics_digest.py` (`HotDigest`) and `send_copywriting_digest.py`
  (`CopywritingDigest`) read `##` sections with a 朋友圈 part and a 小红书 part. What the two
  share is in `Paired`.
- `send_fitness_snippet.py` (`FitnessSnippet`) sends one `##` section per run, in file order.
- `send_pyq_snippet.php` cuts the text under one fixed heading out of a document (`PyqSnippet`).
  It then mails that text through a hand-written SMTP dialogue (`PyqMailer`).
- `generate_pyq.py` (`GeneratePyq`) turns a dated JSON template of ten entries into a numbered
  markdown section. It appends the section to the output file unless the date's header is
  already there, and may mail it.

Shared modules:

- `Common`: `Option`, `Result` and the error cases.
- `Text`: Python's `strip`, `split`, `"\n".join` and `str.isspace`, and decimal integers.
- `Rotation`: `produce_batch` / `pick_entries`, `load_state` and `save_state`.
- `Sender`: the subject line, the `"\n".join(lines).strip() + "\n"` body, and the rule that a
  run writes the state file only after a successful send.

The Python senders share their rotation code, so `Rotation` and `Sender` are cited at
`send_hot_topics_voiceover.py`. The same functions appear at `send_ai_paid_hot_topics_voiceover.py:93-109`,
`send_hot_topics_digest.py:77-93` and `send_copywriting_digest.py:101-125` (there `load_state`
falls back to 0). For the fitness rotation, see `FitnessSnippet`.

Each regular expression is modelled as a scan over the file's lines. The scan is stated as a
function, and the scripts' loops are methods proved equal to it.

Each reader is given a partner:

- a read-back lemma: a document laid out the way the reader expects parses to the entries it
  spells;
- for the voice-over document, a round trip: whatever the generator writes, the sender reads back
  topic by topic.

In these places the code does something a reader may not expect, and the model follows the code:

- **A digest section without its 小红书 part is not dropped.** The lazy `pyq` group of both
  digest patterns runs on, past the next `##` heading, to the next 小红书 marker. So such a
  section swallows the section after it (`HotDigest.SectionAt`, `CopywritingDigest.SectionAt`,
  `CopywritingDigest.NoXhsNoMatch`).
- **In `send_copywriting_digest.py`, backtracking can produce a match with an empty `pyq`.** The
  match is then skipped, not reported (`CopywritingDigest.EmptyPyqMatches`).
- **Only the short-copy parser (`_clean`) trims trailing '。', '.' and ' ' from fields.** Every
  other reader only strips whitespace.
- **Every mail body always writes every label.** No label is omitted and there is no
  titles-only fallback.
- **Selection over an empty list is an error case (`EmptySequence`) of the selector itself.** In
  the scripts it is a modulo by zero, which the empty-file check before it makes unreachable.

## Model

| member | source | states |
|---|---|---|
| Rotation.Clamp | send_hot_topics_voiceover.py:90 | the batch size lies in [1, total] and equals the requested count when that is already in range |
| Rotation.ProduceBatch | send_hot_topics_voiceover.py:88-97 | error exactly for an empty list; otherwise the clamped number of entries taken cyclically from `cursor mod total`, and the next cursor is `(start + count) mod total` < total; equal to the selection function |
| Rotation.SelectBounds | send_hot_topics_voiceover.py:88-97 | every selection over a non-empty list succeeds, with the clamped size and a next cursor in [0, total) |
| Rotation.WrapAroundExample | send_hot_topics_voiceover.py:93-96 | total 5, cursor 4, count 2 gives entries 4 and 0 and next cursor 1 |
| Rotation.FullBatchIsRotation | send_hot_topics_voiceover.py:90-96 | a batch of at least the whole list is the list rotated to start at `cursor mod total`, with the cursor unchanged |
| Rotation.SentAt | send_hot_topics_voiceover.py:91-96 | run `i` of successive one-entry runs, each reading the previous run's cursor, sends entry `(cursor + i) mod total` |
| Rotation.RotationVisitsAll | send_hot_topics_voiceover.py:88-97 | `total` successive one-entry runs send every entry exactly once, in file order, starting at the cursor |
| Rotation.StateRoundTrip | send_hot_topics_voiceover.py:81-85 | loading the state file after `write_text(str(value))` gives back `value`, whatever the fallback |
| Rotation.StateFallbackExamples | send_hot_topics_voiceover.py:81-85 | a missing state file and non-numeric content both give the fallback |
| Rotation.GarbageFallsBack | send_hot_topics_voiceover.py:82-85 | content that starts and ends with a letter is not an integer and gives the fallback |
| Sender.Subject | send_hot_topics_voiceover.py:113 | the subject starts with the prefix followed by " - " |
| Sender.SubjectTitles | send_hot_topics_voiceover.py:101 | the titles are recovered by splitting the subject's tail at '、' when no title holds one |
| Sender.SubjectOne | send_hot_topics_voiceover.py:113 | a one-entry batch gives "prefix - title" |
| Sender.FinishClean | send_hot_topics_voiceover.py:108 | lines that begin visibly and end cleanly are sent as their plain join, ending in exactly one '\n' |
| Sender.FinishEnds | send_hot_topics_voiceover.py:108 | any body with visible text ends in exactly one '\n' |
| Sender.Persist | send_hot_topics_voiceover.py:140-145 | the state file is written exactly when the mail was delivered |
| Sender.PersistRoundTrip | send_hot_topics_voiceover.py:140-145 | the next run reads back the cursor a delivered run wrote |
| ShortCopy.Clean | generate_hot_topics_short_copy.py:18-19 | `_clean` yields a stripped text no longer than its input |
| ShortCopy.HeadingFields | generate_hot_topics_short_copy.py:28-37 | a numbered line gives a non-empty digit id that prefixes the line and a non-empty stripped title that ends it, with sell and deliver unset |
| ShortCopy.HeadingOf | generate_hot_topics_short_copy.py:28-37 | `<digits>)<whitespace><title>` parses to exactly that id and title |
| ShortCopy.Set | generate_hot_topics_short_copy.py:41-44 | a labelled line never changes the open topic's id or title |
| ShortCopy.Apply | generate_hot_topics_short_copy.py:39-44 | a non-numbered line never changes the open topic's id or title |
| ShortCopy.ParseTopics | generate_hot_topics_short_copy.py:22-47 | the loop over the `splitlines()` lines yields the parse function's topics: one per numbered line, in order, with that line's id and title, each well formed |
| Text.SplitLinesRoundTrip | generate_hot_topics_short_copy.py:26 | `splitlines()` of lines without a line boundary, each ended by '\n', gives those lines back |
| Text.SplitLinesCrlf | generate_hot_topics_short_copy.py:26 | "a\r\n" splits into the one line "a": "\r\n" is one boundary, and no empty line follows a final one |
| Text.SplitLinesSeparator | generate_hot_topics_short_copy.py:26 | U+2028 is a line boundary too |
| ShortCopy.TopicKeys | generate_hot_topics_short_copy.py:28-37 | the ids and titles of the topics are exactly the numbered lines' headings, in order |
| ShortCopy.TopicsWellFormed | generate_hot_topics_short_copy.py:27-37 | every topic has a digit id and a one-line, stripped, non-empty title |
| ShortCopy.ScanAppend | generate_hot_topics_short_copy.py:26-46 | scanning two runs of lines is scanning the second from the state the first leaves |
| ShortCopy.ScanAccumulates | generate_hot_topics_short_copy.py:30-31 | topics closed earlier stay in front of whatever the rest of the file yields |
| ShortCopy.PreambleIgnored | generate_hot_topics_short_copy.py:39-40 | lines before the first numbered line change nothing, labelled or not |
| ShortCopy.ScanBlock | generate_hot_topics_short_copy.py:41-44 | the lines after a topic's line only fill in that topic |
| ShortCopy.FirstTopic | generate_hot_topics_short_copy.py:26-46 | preamble, a numbered line and its block give that topic, filled from the block, ahead of the rest's topics |
| ShortCopy.FillFields | generate_hot_topics_short_copy.py:41-44 | sell and deliver are set by the last line holding their label (a line holding both counts as 卖点); an absent label leaves the field unset |
| ShortCopy.PickRootCycles | generate_hot_topics_short_copy.py:50-51 | there are eight root phrases, `_pick_root` repeats with period 8, and index i < 8 picks phrase i |
| ShortCopy.RootHeadOf | generate_hot_topics_short_copy.py:97 | the root of `<name>的｜<rest>` is `<name>` when the name holds no '｜' and does not end in 的 |
| ShortCopy.RootHeadNames | generate_hot_topics_short_copy.py:6-15 | each of the eight root phrases goes by its listed name |
| ShortCopy.CopyBlock | generate_hot_topics_short_copy.py:69-79 | each topic gets seven lines in the short copy |
| ShortCopy.BuildCopy | generate_hot_topics_short_copy.py:54-80 | the short copy is the header and the topics' blocks joined by '\n', ending in exactly one '\n' |
| ShortCopy.CopyEnding | generate_hot_topics_short_copy.py:80 | `rstrip() + "\n"` of the rendered lines is their plain join, ending in one '\n' |
| ShortCopy.CopyBlocksAt | generate_hot_topics_short_copy.py:63-79 | topic j's block sits at lines 7j to 7j + 7 after the header |
| ShortCopy.VoiceBlock | generate_hot_topics_short_copy.py:104-110 | each topic gets three lines in the voice-over document |
| ShortCopy.BuildVoiceover | generate_hot_topics_short_copy.py:83-111 | the voice-over document is the header and the topics' blocks joined by '\n', ending in exactly one '\n' |
| ShortCopy.ScriptShape | generate_hot_topics_short_copy.py:99-103 | a well-formed topic's script is non-empty and stripped |
| ShortCopy.VoiceTextLines | generate_hot_topics_short_copy.py:104-111 | split at its line breaks, the voice-over document gives back exactly the lines it was built from |
| ShortCopy.Generate | generate_hot_topics_short_copy.py:114-126 | a missing source is `SourceNotFound`, a source without topics `EmptyResult`; otherwise both documents of the parsed topics |
| HotVoiceover.HeadingTitle | send_hot_topics_voiceover.py:67-72 | a heading line gives a stripped title, and only a `###` line does |
| HotVoiceover.AfterLabel | send_hot_topics_voiceover.py:67 | the script text exists exactly when the line starts with the label, and the line is the label followed by it |
| HotVoiceover.Kept | send_hot_topics_voiceover.py:72-75 | a match gives one entry exactly when its title and stripped script are non-empty |
| HotVoiceover.MatchesTrimmed | send_hot_topics_voiceover.py:72 | every match's title is a stripped heading title |
| HotVoiceover.ParseClean | send_hot_topics_voiceover.py:71-75 | every parsed entry has a non-empty, stripped title and script |
| HotVoiceover.ParseVoiceovers | send_hot_topics_voiceover.py:62-78 | a missing file is `SourceNotFound`, a file without entries `EmptyResult`; otherwise the entries in file order, each clean |
| HotVoiceover.Collect | send_hot_topics_voiceover.py:70-75 | the `finditer` loop keeps exactly the matches with non-empty title and script, in order |
| HotVoiceover.MatchesAppend | send_hot_topics_voiceover.py:67 | a script never reaches past a `###` line, so lines ending where one begins match on their own |
| HotVoiceover.NoHeadingNoMatch | send_hot_topics_voiceover.py:66-71 | lines without a heading hold no match |
| HotVoiceover.OneEntry | send_hot_topics_voiceover.py:71-75 | a match of a non-empty title and stripped script keeps exactly that entry |
| HotVoiceover.BlockParses | send_hot_topics_voiceover.py:66-75 | a heading, a label line and a blank line parse to the entry they spell |
| HotVoiceover.DocumentParses | send_hot_topics_voiceover.py:66-75 | a header without headings followed by blocks that each parse on their own parses block by block |
| HotVoiceover.ReadBack | send_hot_topics_voiceover.py:62-78 | a header without headings then well-spelled blocks reads back as entry i = (title i, script i) |
| HotVoiceover.HeadingTitleOf | send_hot_topics_voiceover.py:67 | the generator's `### <id>) <title>` line is a heading with that title |
| HotVoiceover.LabelsAgree | generate_hot_topics_short_copy.py:107 | the label the generator writes is the one the sender looks for |
| HotVoiceover.VoiceShape | generate_hot_topics_short_copy.py:104-110 | the generator's blocks are well-spelled blocks of its headings and scripts |
| HotVoiceover.VoiceBlockShape | generate_hot_topics_short_copy.py:104-110 | one topic's block as the generator writes it is the block the sender reads, with a titled heading and a clean script |
| HotVoiceover.RoundTrip | generate_hot_topics_short_copy.py:83-111 | the sender parses the voice-over document back to one entry per topic, in order, with the topic's title and its script |
| HotVoiceover.GeneratedParses | generate_hot_topics_short_copy.py:121-126 | any source with topics gives a voice-over document that parses to one entry per topic, titled like it |
| HotVoiceover.BuildMessage | send_hot_topics_voiceover.py:100-115 | the subject names the batch's titles and the body finishes the body lines |
| HotVoiceover.BodyAt | send_hot_topics_voiceover.py:103-107 | entry j fills lines 4j to 4j + 4: "j+1. title", a blank line, the script, a blank line |
| HotVoiceover.BodyEnds | send_hot_topics_voiceover.py:108 | a body whose last entry is clean is the plain join of its lines, ending in one '\n' |
| HotVoiceover.BodyShape | send_hot_topics_voiceover.py:102-108 | plain join, one final '\n', four lines per entry, entry j at lines 4j to 4j + 4 |
| HotVoiceover.Run | send_hot_topics_voiceover.py:125-146 | the file's error cases, else the subject and body of the batch at the stored cursor (`initial` when unreadable) and the state written only after delivery |
| HotVoiceover.RunBody | send_hot_topics_voiceover.py:136-139 | a run's mail lists exactly its batch's scripts, in order, as a plain join |
| AiPaidVoiceover.MarkEnd | send_ai_paid_hot_topics_voiceover.py:70 | a `##\s*\d+\)` mark ends inside the line, which starts with "##" |
| AiPaidVoiceover.HeadingTitle | send_ai_paid_hot_topics_voiceover.py:70-76 | a heading gives a non-empty stripped title, and only a marked line does |
| AiPaidVoiceover.Kept | send_ai_paid_hot_topics_voiceover.py:76-87 | a section gives an entry exactly when title and stripped body are non-empty; its body is the tidied stripped body, stripped |
| AiPaidVoiceover.MatchesTitled | send_ai_paid_hot_topics_voiceover.py:76 | every section's title is non-empty and stripped |
| AiPaidVoiceover.ParseClean | send_ai_paid_hot_topics_voiceover.py:75-87 | every parsed entry is clean |
| AiPaidVoiceover.ParseVoiceovers | send_ai_paid_hot_topics_voiceover.py:65-90 | a missing file is `SourceNotFound`, a file without entries `EmptyResult`; otherwise the entries in file order, each clean |
| AiPaidVoiceover.Collect | send_ai_paid_hot_topics_voiceover.py:74-87 | the loop keeps exactly the sections with non-empty title and body, in order |
| AiPaidVoiceover.BodyEnd | send_ai_paid_hot_topics_voiceover.py:70 | the lazy body stops at the first mark at or after its start, or at the end |
| AiPaidVoiceover.MatchesAppend | send_ai_paid_hot_topics_voiceover.py:70 | a section never reaches past a mark, so lines ending where a mark begins parse on their own |
| AiPaidVoiceover.HeaderIgnored | send_ai_paid_hot_topics_voiceover.py:69-75 | lines before the first heading never affect the result |
| AiPaidVoiceover.OneEntry | send_ai_paid_hot_topics_voiceover.py:76-87 | a heading and unmarked body lines keep the entry of the title and the tidied stripped body |
| AiPaidVoiceover.ReadBack | send_ai_paid_hot_topics_voiceover.py:65-90 | a header without headings then well-spelled sections reads back as entry i = (title i, body i tidied) |
| AiPaidVoiceover.SectionsRoundTrip | send_ai_paid_hot_topics_voiceover.py:65-90 | the document joined from a header and well-spelled sections parses back to their entries |
| AiPaidVoiceover.BuildMessage | send_ai_paid_hot_topics_voiceover.py:112-127 | the subject names the batch's titles and the body finishes the body lines |
| AiPaidVoiceover.BodyAt | send_ai_paid_hot_topics_voiceover.py:115-119 | entry j fills lines 4j to 4j + 4: "## title", a blank line, the body, a blank line |
| AiPaidVoiceover.BodyEnds | send_ai_paid_hot_topics_voiceover.py:120 | the body ends in exactly one '\n', and is the plain join when the last body is clean |
| AiPaidVoiceover.Run | send_ai_paid_hot_topics_voiceover.py:137-158 | the file's error cases, else the subject and body of the batch at the stored cursor and the state written only after delivery |
| AiPaidVoiceover.RunBody | send_ai_paid_hot_topics_voiceover.py:148-151 | a run's mail shows each batch entry's heading and body, in order, ending in one '\n' |
| Paired.TitleStart | send_hot_topics_digest.py:60 | the title group starts inside the line, at least three characters past the "##" it follows |
| Paired.BacktrackDigit | send_hot_topics_digest.py:60 | "## 12" with nothing after it has the title "2": `\d+` gives back its last digit |
| Paired.BacktrackDot | send_hot_topics_digest.py:60 | "## 1." with nothing after it has the title ".": the optional '.' is given back |
| Paired.BacktrackSpace | send_copywriting_digest.py:82 | under the mandatory '.', "## 1. " has the title " ": the trailing space is given back |
| Paired.TitleFrom | send_hot_topics_digest.py:60 | the title group is a non-empty tail of the line |
| Paired.HeadingLineTitle | send_hot_topics_digest.py:60 | `## <n>. <title>` is a heading in both digest patterns, with that title |
| Paired.Kept | send_hot_topics_digest.py:67-71 | a match gives an entry exactly when none of its stripped groups is empty, and the entry is the stripped groups |
| Paired.KeepClean | send_hot_topics_digest.py:66-71 | every kept entry is clean |
| Paired.Collect | send_hot_topics_digest.py:65-71 | the loop keeps exactly the matches without an empty group, in order |
| Paired.LaidKept | send_hot_topics_digest.py:66-71 | a laid-out section keeps the stripped title and texts |
| Paired.MarkdownSpelled | send_hot_topics_digest.py:59-64 | clean entries spell their own document, under both heading patterns |
| Paired.SpelledBack | send_hot_topics_digest.py:67-69 | stripping the texts of clean entries gives the entries back |
| Paired.RenderBody | send_hot_topics_digest.py:98-111 | the body loop finishes the summary line and one block per entry |
| Paired.BodyAt | send_hot_topics_digest.py:102-110 | entry j fills lines 2 + 8j to 10 + 8j |
| Paired.BodyEnds | send_hot_topics_digest.py:111 | a body under a visible summary ends in exactly one '\n', and is the plain join when the last 小红书 text is clean |
| Paired.BodyShows | send_hot_topics_digest.py:98-110 | the body shows the summary line, then each entry's heading, 朋友圈 and 小红书 texts at fixed lines, in order |
| HotDigest.SectionAt | send_hot_topics_digest.py:59-64 | a match found at a line ends after it, within the file |
| HotDigest.ParseClean | send_hot_topics_digest.py:66-71 | every parsed entry is clean |
| HotDigest.ParseMarkdown | send_hot_topics_digest.py:55-74 | a missing file is `SourceNotFound`, a file without entries `EmptyResult`; otherwise the entries in file order, each clean |
| HotDigest.LaidSection | send_hot_topics_digest.py:59-64 | an eight-line laid-out section is one match, and the search resumes right after it |
| HotDigest.ScanSections | send_hot_topics_digest.py:66-71 | from section i on, a spelled file reads back entry by entry |
| HotDigest.HeaderSkipped | send_hot_topics_digest.py:66 | lines without a heading are passed over |
| HotDigest.ReadBack | send_hot_topics_digest.py:55-74 | a header without headings then spelled sections parses to their stripped entries |
| HotDigest.MarkdownRoundTrip | send_hot_topics_digest.py:55-74 | clean one-line entries written out as a topic file parse back as they were |
| HotDigest.BuildMessage | send_hot_topics_digest.py:96-118 | the subject names the batch's titles; the body is the counting summary line and one block per entry |
| HotDigest.Run | send_hot_topics_digest.py:128-149 | the file's error cases, else the mail of the batch at the stored cursor (0 when unreadable) and the state written only after delivery |
| HotDigest.RunBody | send_hot_topics_digest.py:96-111 | a run's mail: summary line, each entry's title and texts in batch order, plain join ending in one '\n' |
| CopywritingDigest.PyqSpan | send_copywriting_digest.py:83 | the 朋友圈 text lies after its marker and before a 小红书 marker line that a line follows |
| CopywritingDigest.SectionAt | send_copywriting_digest.py:81-86 | a match found at a line ends after it, within the file |
| CopywritingDigest.ParseClean | send_copywriting_digest.py:89-94 | every parsed entry is clean |
| CopywritingDigest.LoadEntries | send_copywriting_digest.py:75-98 | a missing file is `SourceNotFound`, a file without entries `EmptyResult`; otherwise the entries in file order, each clean |
| CopywritingDigest.EmptyPyqMatches | send_copywriting_digest.py:83-93 | a 小红书 marker just after a blank line after the 朋友圈 marker still matches, with an empty 朋友圈 text, and keeps nothing |
| CopywritingDigest.NoXhsNoMatch | send_copywriting_digest.py:81-86 | with no 小红书 marker later in the file, no match starts at the heading |
| CopywritingDigest.LaidSection | send_copywriting_digest.py:81-86 | an eight-line laid-out section is one match, and the search resumes right after it |
| CopywritingDigest.ScanSections | send_copywriting_digest.py:89-94 | from section i on, a spelled file reads back entry by entry |
| CopywritingDigest.ReadBack | send_copywriting_digest.py:75-98 | a header without headings then spelled sections parses to their stripped entries |
| CopywritingDigest.MarkdownRoundTrip | send_copywriting_digest.py:75-98 | clean one-line entries written out as a copywriting file parse back as they were |
| CopywritingDigest.ShownBatch | send_copywriting_digest.py:144-147 | stripping the texts of a clean batch again changes nothing |
| CopywritingDigest.ShowBatch | send_copywriting_digest.py:140-148 | the loop strips each entry's two texts, entry by entry |
| CopywritingDigest.BuildMessage | send_copywriting_digest.py:128-157 | the subject names the batch's titles; the body is the summary line and one block per entry, texts stripped |
| CopywritingDigest.Run | send_copywriting_digest.py:168-193 | the file's error cases, else the mail of the batch at the stored cursor (0 when unreadable) and the state saved only after delivery |
| CopywritingDigest.RunBody | send_copywriting_digest.py:134-150 | a run's mail: summary line, each entry's title and texts in batch order, plain join ending in one '\n' |
| FitnessSnippet.HeadAt | send_fitness_snippet.py:31 | the heading starts at the first "##" with visible text after it on the line; with none, every "##" on the line is followed by blanks only |
| FitnessSnippet.LaterPairsBlank | send_fitness_snippet.py:31 | after a "##" followed only by blanks, every later "##" is too |
| FitnessSnippet.SectionAt | send_fitness_snippet.py:30-33 | a match found at a line ends after it, within the file |
| FitnessSnippet.Kept | send_fitness_snippet.py:36-39 | a match gives a section exactly when both stripped groups are non-empty, and the section is them |
| FitnessSnippet.Collect | send_fitness_snippet.py:34-39 | the loop keeps exactly the matches with non-empty heading and body, in order |
| FitnessSnippet.LoadSections | send_fitness_snippet.py:28-42 | an unreadable file is `SourceNotFound`, a file without sections `EmptyResult`; otherwise the sections in file order, each clean |
| FitnessSnippet.ReadBack | send_fitness_snippet.py:28-42 | heading lines each followed by a blank line, a one-line body and a blank line read back as those sections, stripped |
| FitnessSnippet.FileRoundTrip | send_fitness_snippet.py:28-42 | clean sections written one block each after a header parse back as they were |
| FitnessSnippet.PickIndex | send_fitness_snippet.py:45-53 | the picked index is within the section list |
| FitnessSnippet.PickNextSection | send_fitness_snippet.py:45-53 | returns the index one past the stored one, wrapped, and the section at it |
| FitnessSnippet.FirstPick | send_fitness_snippet.py:46-52 | a missing or non-numeric state file sends section 0 |
| FitnessSnippet.PickAfter | send_fitness_snippet.py:52 | after sending section i, the next run sends i + 1, or 0 after the last |
| FitnessSnippet.VisitsInOrder | send_fitness_snippet.py:45-53 | runs from a fresh start send section 0 first, then each run the section after the previous one's |
| FitnessSnippet.VisitsAll | send_fitness_snippet.py:52 | the first n runs send sections 0 to n - 1, each once, in file order |
| FitnessSnippet.Subject | send_fitness_snippet.py:60 | the subject is the fixed prefix followed by text free of "##" |
| FitnessSnippet.StripNoPair | send_fitness_snippet.py:75 | stripping keeps a text free of "##" |
| FitnessSnippet.Run | send_fitness_snippet.py:72-78 | the file's error cases, else the mail of the picked section and its index saved only after the send |
| FitnessSnippet.BodyParts | send_fitness_snippet.py:61 | the mail body is the heading, one blank line, then exactly the body |
| PyqSnippet.Trim | send_pyq_snippet.php:56 | PHP `trim` leaves no PHP whitespace at either end |
| PyqSnippet.BreakLen | send_pyq_snippet.php:51 | `\R` takes "\r\n" as one break and otherwise one break character |
| PyqSnippet.FindHeadingSpec | send_pyq_snippet.php:51-52 | the search finds the leftmost heading followed by a line break, or reports there is none |
| PyqSnippet.RuleFromSpec | send_pyq_snippet.php:51 | the lazy group passes over no `\R---` before the position it stops at |
| PyqSnippet.RuleFirst | send_pyq_snippet.php:51 | the group stops at the first `\R---` |
| PyqSnippet.TitleSuffix | send_pyq_snippet.php:57 | the title suffix is trimmed and free of "##" |
| PyqSnippet.TrimKeepsNoPair | send_pyq_snippet.php:57 | trimming cannot create a "##" |
| PyqSnippet.ExtractSnippet | send_pyq_snippet.php:40-64 | a missing file is `SourceNotFound`, the only other error is `HeadingNotFound`; a snippet keeps the heading, a trimmed body and the title suffix |
| PyqSnippet.ExtractFails | send_pyq_snippet.php:51-54 | extraction from a readable file fails exactly when the heading is nowhere followed by a line break, and then with `HeadingNotFound` |
| PyqSnippet.ExtractRoundTrip | send_pyq_snippet.php:51-63 | `pre heading \n body tail`, with no earlier heading line, a trimmed rule-free body and a tail that is empty or a rule, extracts exactly `body` |
| PyqSnippet.ExtractAt | send_pyq_snippet.php:51-56 | with the heading at h and the first rule at e, the body is the trimmed text between them |
| PyqSnippet.Compose | send_pyq_snippet.php:25-26 | the subject is the prefix then the title suffix; the body is the heading, "\n\n", then the snippet |
| PyqSnippet.HashHeadingTitle | send_pyq_snippet.php:57 | a "## " heading's suffix is its text when that has no '#' and no padding |
| PyqSnippet.TargetTitle | send_pyq_snippet.php:21-25 | the fixed heading's subject suffix is "Day 1《刻意练习》" |
| PyqSnippet.ExpandCrlf | send_pyq_snippet.php:162 | expanding '\n' to CRLF in a text without '\r' leaves only CRLF breaks |
| PyqSnippet.CollapseExpand | send_pyq_snippet.php:159-162 | collapsing CRLF back to '\n' undoes the expansion |
| PyqSnippet.NormalizedIsCrlf | send_pyq_snippet.php:159-163 | after normalisation every line break is CRLF |
| PyqSnippet.NormalizeIdempotent | send_pyq_snippet.php:159-163 | normalising twice is normalising once |
| PyqSnippet.StuffRoundTrip | send_pyq_snippet.php:124 | removing the stuffed dots gives back exactly the message |
| PyqSnippet.DataEndsAfterMessage | send_pyq_snippet.php:124-126 | the end-of-data marker first occurs right after the stuffed message, and the server recovers the message |
| PyqSnippet.HeaderBlockNoBlank | send_pyq_snippet.php:141-150 | the header block holds no blank line when its values hold none |
| PyqSnippet.MessageSplits | send_pyq_snippet.php:136-154 | the first empty line of the message ends the header block, and what follows is the normalised body |
| PyqMailer.ReplyEnd | send_pyq_snippet.php:184-189 | a reply takes at least one line when input remains, and never passes its end |
| PyqMailer.ReplyEndSpec | send_pyq_snippet.php:184-189 | a reply runs over continuation lines up to its first ending line, or to the end of input |
| PyqMailer.ReplyEndAt | send_pyq_snippet.php:186-187 | the reply ends right after the first line with a space in position 3 |
| PyqMailer.CodeOfDigits | send_pyq_snippet.php:195 | three leading digits are read as the reply code, between 0 and 999 |
| PyqMailer.CodeOfText | send_pyq_snippet.php:195 | a reply that starts with neither whitespace, a sign nor a digit has code 0 |
| PyqMailer.CodeOfExponent | send_pyq_snippet.php:195 | "1e2" is read as the number 1e2, code 100 |
| PyqMailer.ExpectResponse | send_pyq_snippet.php:181-201 | the loop collects the reply's lines and stops where the reply ends; empty is `NoResponse`, a code not expected `UnexpectedReply` |
| PyqMailer.TalkMeaning | send_pyq_snippet.php:110-129 | the dialogue succeeds exactly when every reply is accepted, and then it has written every command in order |
| PyqMailer.TalkStops | send_pyq_snippet.php:110-129 | the dialogue stops at the first refused reply, having written the commands up to and including that step's, and fails with its error |
| PyqMailer.HeloName | send_pyq_snippet.php:112 | the EHLO name is never "" or "0", and is the host name when that is truthy |
| PyqMailer.SmtpSteps | send_pyq_snippet.php:110-129 | `sendEmail` exchanges exactly ten command/reply steps |
| PyqMailer.SendEmail | send_pyq_snippet.php:80-131 | what `sendEmail` writes and returns is the mail dialogue |
| PyqMailer.Session | send_pyq_snippet.php:108-129 | the commands issued one by one, each refused reply ending the session, are the dialogue over the ten steps |
| PyqMailer.Exchange | send_pyq_snippet.php:170-174 | one command and its reply: a refusal ends the dialogue with that error, an accepted reply continues it |
| PyqMailer.SmtpWrites | send_pyq_snippet.php:113-129 | a full session writes EHLO, AUTH LOGIN, user, password, MAIL FROM, RCPT TO, DATA, the dot-stuffed message, the terminator and QUIT, in that order |
| PyqMailer.MailSucceeds | send_pyq_snippet.php:80-131 | over an open TLS socket the mail succeeds exactly when all ten replies are accepted, and then the whole session has been written |
| PyqMailer.MailStops | send_pyq_snippet.php:80-131 | the mail stops at the first refused reply, having written the commands up to that exchange, and fails with that reply |
| PyqMailer.GreetingRefused | send_pyq_snippet.php:110 | when the greeting is refused, the client has written nothing and fails with the greeting's error |
| PyqMailer.QuitRefused | send_pyq_snippet.php:125-129 | a refused QUIT fails the mail although the message and its terminator were written and accepted |
| PyqMailer.RunMeaning | send_pyq_snippet.php:23-28 | without the snippet nothing is written and the run fails with that error; with it, the subject is "PyQ日更分享 - Day 1《刻意练习》" and the body the heading, a blank line and the snippet |
| GeneratePyq.Get | generate_pyq.py:73 | `get` finds a value exactly when the key is present, and it is the stored one |
| GeneratePyq.AnyBadSpec | generate_pyq.py:78 | the `any` check holds exactly when some entry is not a string or is blank |
| GeneratePyq.LoadTemplate | generate_pyq.py:60-82 | a missing template is `TemplateNotFound`, any other rejection `BadTemplate`; an accepted template is the file's, with a ten-item entries list |
| GeneratePyq.TemplateAccepted | generate_pyq.py:73-82 | a template is accepted exactly when it has ten non-blank string entries |
| GeneratePyq.Entries | generate_pyq.py:182 | one entry per item, each a stripped string item |
| GeneratePyq.EntriesOfValid | generate_pyq.py:182 | an accepted template gives ten entries, each non-empty and stripped |
| GeneratePyq.Items | generate_pyq.py:96 | one numbered line per entry |
| GeneratePyq.ItemsAt | generate_pyq.py:96 | the i-th numbered line carries number i + 1 and entry i |
| GeneratePyq.BlockShape | generate_pyq.py:95-111 | the section is the header, a blank line, the numbered entries one per line and a final '\n', so the extra '\n' is never written |
| GeneratePyq.BlockLinesBack | generate_pyq.py:95-98 | read back line by line the section gives its header, the blank line, entry i numbered i + 1 on line i + 2, and an empty last line |
| GeneratePyq.Separator | generate_pyq.py:101-107 | the separator, chosen on the file's text as `read_text` gives it, is "", "\n" or "\n\n" |
| GeneratePyq.SeparatorSpec | generate_pyq.py:101-108 | an empty file gets no separator; otherwise the old text plus the separator ends in a blank line |
| GeneratePyq.SeparatorFewest | generate_pyq.py:102-107 | the separator is the fewest line breaks that leave a blank line |
| GeneratePyq.AppendMarkdown | generate_pyq.py:92-112 | the loop renders the section, and the file becomes its old content, the separator chosen on that content's `read_text` text, and the section |
| GeneratePyq.SeparatorReadBack | generate_pyq.py:94-108 | unless the old content ends in a lone '\r', the file read back after the separator ends in a blank line |
| GeneratePyq.LoneReturnJoins | generate_pyq.py:94-108 | a file ending "a\r" reads as "a\n" and gets "\n", and "a\r\n" reads as "a\n": no blank line |
| GeneratePyq.CrlfNeedsNoSeparator | generate_pyq.py:94-104 | a file ending "\r\n\r\n" reads as ending in a blank line and gets no separator |
| GeneratePyq.MissingFrom | generate_pyq.py:124-126 | a field reported missing is required and absent; with none reported, all are present |
| GeneratePyq.Recipients | generate_pyq.py:129 | there are never more recipients than pieces |
| GeneratePyq.BlankRecipientKept | generate_pyq.py:129 | `to_addrs` " " gives the as-written list [""] and the corrected list [] |
| GeneratePyq.RecipientsTrimmed | generate_pyq.py:129 | every recipient is non-empty and stripped |
| GeneratePyq.RecipientsNone | generate_pyq.py:129-131 | there is no recipient exactly when every piece is blank |
| GeneratePyq.RecipientsAll | generate_pyq.py:129 | with no blank piece, every piece gives its stripped recipient, in order |
| GeneratePyq.EmailConfigOf | generate_pyq.py:115-132 | no file means no mail; the only errors are a missing field and no recipient; a loaded configuration has every required field |
| GeneratePyq.EmailConfigSpec | generate_pyq.py:127-132 | a loaded configuration is the file's with only `to_addrs` replaced; it loads exactly when there are recipients, else `NoRecipients` |
| GeneratePyq.EmailConfigMissing | generate_pyq.py:123-126 | the first required field the file lacks is the one reported |
| GeneratePyq.LoadEmailConfig | generate_pyq.py:115-132 | the field-by-field loop computes the configuration function |
| GeneratePyq.Subject | generate_pyq.py:202-204 | without `email_subject` the subject is "<date> 朋友圈文案"; with it, the template's text |
| GeneratePyq.EmailBodyShape | generate_pyq.py:205-210 | the body is header, '\n', section; with a truthy intro, header, '\n', the stripped intro, a blank line, section |
| GeneratePyq.GenerateRejects | generate_pyq.py:181 | a missing or invalid template leaves the file alone, sends nothing and reports why |
| GeneratePyq.GenerateAppends | generate_pyq.py:184-189 | a new date's section is appended after the old content and a separator after which the content's text ends in a blank line; read back, the file shows that blank line unless the content ends in a lone '\r'; the file ends in '\n' |
| GeneratePyq.AppendedEnds | generate_pyq.py:99-111 | the appended file ends in '\n', as the section does |
| GeneratePyq.AppendedHasHeader | generate_pyq.py:84-89 | the appended file's text contains the section's header |
| GeneratePyq.GenerateOnce | generate_pyq.py:185-187 | a second run for the same (ISO, so '\r'-free) date on the appended file changes nothing and sends nothing |
| GeneratePyq.GenerateConfigFails | generate_pyq.py:196-197 | a bad mail configuration fails the run after the section has been appended, and sends nothing |
| GeneratePyq.GenerateMails | generate_pyq.py:196-212 | with a loaded configuration the mail goes to it with the default subject and the header followed by the section |

## Left out

- Reading and writing files, environment variables and the argument parser are outside the
  model. File contents are parameters (`None` when a file is missing or unreadable). The new
  file or state content is a result.
- The Python readers take a file's text as `read_text` returns it, after its newline
  translation ("\r\n" and a lone '\r' read as '\n'). `generate_pyq.py` is modelled on the file's
  raw content instead, because it appends to the file after choosing on the translated text:
  `Text.ReadText` is that translation. The same goes for `mkdir`, the `--dry-run` printing and
  every `print`/`fwrite` of status text.
- The senders' `--count`, `--subject-prefix` and environment defaults are parameters
  (`count`, `prefixArg`, `configPrefix`).
- The source paths, state paths and SMTP host, port, user and recipient are not modelled
  except as opaque values.
- `send_email` in the Python scripts is not modelled: SSL contexts, `smtplib`, login and
  `EmailMessage` headers. Whether the send returned is a parameter (`Delivery` / `sent`), and
  only the subject and body are modelled.
- `generate_pyq.py`'s `send_email` is not modelled: the port default, the password check and
  `use_ssl`/`use_tls`. The model stops at the mail it would send.
- In `send_pyq_snippet.php`, the socket, its stream options and the timeouts are left out.
  Whether the connection opened is a flag; the server's replies are given as the lines `fgets`
  would return. Chunking of lines longer than 514 bytes and `fclose` are not modelled.
- `gethostname`, `base64_encode` and `mb_encode_mimeheader` are parameters. Their results are
  whatever those functions return.
- `json.load` and its decode errors are left out. Templates and configurations are given as
  the decoded JSON object, and numbers are integers. A file whose JSON is not an object is not
  modelled.
- `resolve_date`, `strptime` and `date.today` are left out: the date is a string parameter.
- Rotation.LoadState: the state is read with the model's `ParseInt`, which takes an optional
  sign and ASCII digits only. Python's `int` also accepts '_' between digits ("1_000") and
  non-ASCII decimal digits ("١٢"); for such a state file the model falls back where the script
  reads a number. The same holds for the fitness state read by FitnessSnippet.PickIndex.
- AiPaidVoiceover.Kept: `textwrap.dedent` and the `口播稿` replacement between the two strips
  are the parameter `tidy`. Only the stripping on both sides of it is modelled.
- Regular expressions are modelled as line scans, with these simplifications:
  - A heading's `\s*` never runs over a line break. A `##`, `###` or `## <n>)` followed only
    by whitespace on its line is no heading, where the regex would take text from the next line
    (for `###`, failing that, one trailing space, which the `if title` filter then drops).
  - FitnessSnippet.Fence: the fitness lookahead `(?=\n##\s*[^\n]+)` is read the same way, so a
    bare `##` line never ends a body. In the script its `\s*` runs over the line break, so a bare
    `##` line with a non-empty line after it ends the body before it; in the model the body runs
    on past that line.
  - FitnessSnippet.SectionAt: a `##` line followed only by whitespace is never a heading. When
    the next visible text after it is on the file's last line, with no '\n' after it, the regex
    cannot take its heading from that line, and `[^\n]+` backtracks onto the whitespace of the
    `##` line (or of a blank line after it) instead. It then matches a heading that strips to
    "##", which `if heading and body` keeps, with the body up to the next fence line or the end
    of the file; the mail for it would have an empty subject suffix. The model finds no section there:
    "## x\nbody\n## \nlast" gives the one section ("## x", "body"), where the script gives a
    second one ("##", "last").
  - Paired.TitleStart: after `## <n>` (or `## <n>.`) followed only by whitespace on its line,
    the model takes the title the regex backtracks to on that line: one trailing space, else the
    optional '.', else the last of two or more digits. Because its second `\s*` may run over line
    breaks, the regex tries two titles first, which the model does not: the next visible line,
    and the last character of a blank but not empty line before the 朋友圈 marker.
  - Digits are ASCII digits.
  - Python strings are `seq<char>`. PHP byte strings are modelled as characters, so `\R`,
    `trim` and `/u` advance one character at a time.
- GeneratePyq.EmailConfigOf: a string `to_addrs` is filtered by the corrected rule (a piece is
  kept when it is not blank after stripping), not by the code's `if addr`. See Findings: the
  as-written filter keeps a blank address.
- GeneratePyq.LoadEmailConfig: it uses the same corrected recipient filter as `EmailConfigOf`.
- GeneratePyq.Subject: a non-string `email_subject` is reported as `NotAString`. The script
  would pass it on to `EmailMessage`. Here `email_intro` is unlike it and modelled as the script
  runs it: a truthy non-string fails at `intro.strip()` (`NotAString`), a falsy one is skipped.
- The scripts run one at a time, so concurrent runs sharing a state file are not modelled.
- The `load_config` dictionaries are not modelled, and neither are the credentials they hold.

## Findings

| source | as written | input that shows it | evidently intended | confidence | as-written member | corrected member |
|---|---|---|---|---|---|---|
| generate_pyq.py:129 | `if addr` tests the piece before it is stripped, so a piece of spaces gives an empty address and the "at least one recipient" check at line 130 passes | `"to_addrs": " "` (or `"a@x.com, "`) gives `[""]` (or `["a@x.com", ""]`) | keep a piece only when it is not blank once stripped (`if addr.strip()`), so `" "` is refused for naming no recipient | not executed | GeneratePyq.BlankRecipientKept | GeneratePyq.RecipientsNone |
