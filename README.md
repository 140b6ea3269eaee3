# FileScope metadata toolkit — a Dafny model

FileScope inspects files and reports their metadata. It extracts EXIF, GPS, audio-tag, video, PDF and text fields into one record per file. It compares and filters those records, exports them as text, CSV or XML, and keeps a small settings file. Its Tk application adds a byte-level analysis of a file: printable strings, per-kilobyte entropy and a hex dump.

This project models the sequential logic under the user interface, one Dafny module per source file:

- `FileUtils` (file_utils.py): the extension and category of a path, the size unit, and the checksum dispatch with its 4096-byte read loop. The digest is an abstract accumulator. It also covers the key-by-key diff of two records and the layouts of the text, CSV-header and XML exports.
- `MetadataExtractors` (metadata_extractors.py): how a record is assembled. This covers the missing-file short-circuit, the right-biased merge and the per-category dispatch. It also covers the EXIF tag copy and GPS decoding (degrees, minutes and seconds as rationals, with the sign taken from the reference tag), first-alias-wins audio tags, `format_duration`, the video resolution text, the PDF key prefix and the text statistics. What the libraries return is an input.
- `FileProcessors` (file_processors.py): the four-way key partition of `FileComparer.compare`, the all-criteria record filter, and the counters of `BatchProcessor` as a class.
- `BinaryAnalysis` (FileScope.py): printable-string extraction, 1 KB chunks, the byte histogram behind the entropy, the entropy bands and flag, and the 16-bytes-per-row hex dump. It also holds the app's own extension table and the key partition of its comparison view.
- `Config` (config.py): `AppConfig` as a class over an in-memory map. This covers the default-key-only merge on load, `get`/`set`, the most-recent-files list and the theme choice.
- `Visualizers` (visualizers.py): the data behind the charts. This covers category counts, the first ten file sizes, key frequencies with the top ten keys, the availability matrix and the similarity summary.
- `UiComponents` (ui_components.py): the metadata panel's lines, its search filter, and the upload dialog's file-type filter.

Four shared modules support these:

- `PyStrings` and `PyValues` restate the Python built-ins the code relies on: `lower`, `strip`, `split`, `sorted` on keys, `==` across numeric types, truthiness and `str()`.
- `Runs` describes maximal runs between rejected elements.
- `Collections` holds small map and sequence facts.
- `Wrappers` holds `Option` and `Result`.

Loops in the source are methods with loop invariants here. Each method is proved equal to a specification function, and the properties are lemmas about those functions.

A string-versus-string criterion with an ordering operator such as `>` imposes no constraint in the code (file_processors.py:254-270), so a record with `"size": "10"` passes `size > "15"`; see `FileProcessors.StringOrderingIsNoConstraint`.

## Model

| member | source | states |
|---|---|---|
| PyValues.PyEqIsEquivalence | file_processors.py:182 | Python's `==` on metadata values, where numbers compare by value across `bool`, `int` and `float`, is reflexive, symmetric and transitive |
| PyStrings.SortedKeys | ui_components.py:413 | `sorted` over the distinct keys lists each key exactly once, in strictly increasing code-point order |
| PyStrings.Strip | ui_components.py:416 | the stripped text neither starts nor ends with whitespace |
| PyStrings.StripKeepsOnlyCharsOf | ui_components.py:416 | stripping only removes characters |
| PyStrings.SplitJoin | ui_components.py:160 | joining parts free of the separator and splitting again gives back the parts |
| PyStrings.JoinSplit | ui_components.py:415 | the parts of a split joined with the separator give back the text |
| FileUtils.LastIndexOf | file_utils.py:12-13 | the last index of a character, or -1: the character is there and nowhere after it (the `rfind` inside `os.path.splitext`) |
| FileUtils.ExtensionShape | file_utils.py:12-13 | the extension is empty or a dot followed by no dot and no slash, and it is the lowered tail of the path |
| FileUtils.ExtensionOfStemAndSuffix | file_utils.py:12-13 | a final component with a stem before its last dot has the lowered `.suffix` as extension |
| FileUtils.HiddenFileHasNoExtension | file_utils.py:12-13 | a name that is one leading dot and a dot-free word (`.bashrc`) has no extension |
| FileUtils.FirstRowListing | file_utils.py:19-21 | the index of the first `FILE_TYPES` row listing the extension, or -1 when no row lists it |
| FileUtils.CategoryOfExtensionIsListingRow | file_utils.py:16-23 | the category is "Other" exactly when no row lists the extension, and otherwise the row listing it |
| FileUtils.CsvAndLogAreOther | file_utils.py:16-23 | ".csv" and ".log" are "Other", ".txt" is "Documents" |
| FileUtils.RowsDisjoint | constants.py:4-10 | no extension is listed by two categories, so the first-match lookup is the only match |
| FileUtils.FileSizeUnitKeepsAmountInRange | file_utils.py:83-91 | below 1024 the exact count with " bytes", reading back as the same number; otherwise KB/MB/GB is chosen so that the scaled amount lies in [1, 1024), GB unbounded above |
| FileUtils.OpenFile.Read | file_utils.py:40 | `f.read(n)` returns the next n bytes, fewer at the end, and advances the position |
| FileUtils.Hasher.Update | file_utils.py:41 | the hasher accumulates exactly the chunks fed to it, in order |
| FileUtils.WellChunkedSnoc | file_utils.py:40-41 | a full chunk followed by another chunk of at most 4096 bytes keeps the chunking well formed |
| FileUtils.FeedChunks | file_utils.py:38-41 | the chunks fed concatenate to the whole file, are non-empty, at most 4096 bytes, all but the last exactly 4096 |
| FileUtils.CalculateChecksum | file_utils.py:26-46 | an unknown algorithm name or an unreadable file gives "Checksum calculation failed"; otherwise md5/sha1/sha256 (any case) digest the whole file fed in 4096-byte chunks |
| FileUtils.CompareMetadata | file_utils.py:186-198 | the loop over the union of the keys builds exactly `MetadataDiff` |
| FileUtils.MetadataDiffReportsExactly | file_utils.py:186-198 | a key is reported iff it is in one record only or in both with unequal values; "N/A" on the missing side with "Missing in File 1/2", else "Different" |
| FileUtils.MetadataDiffSwap | file_utils.py:186-198 | swapping the records keeps the reported keys and swaps the two sides and the two "Missing" statuses |
| FileUtils.RecordLines | file_utils.py:177-178 | one line per field of the record |
| FileUtils.RecordLineAt | file_utils.py:177-178 | the j-th line is "key: value\n" for the j-th key in sorted order |
| FileUtils.WriteRecordLines | file_utils.py:172-173 | the inner loop writes exactly the record's lines in sorted key order |
| FileUtils.ExportText | file_utils.py:167-178 | the text export writes exactly `TextWrites`: the lines of one record, or per record a "===== File i =====" header, its lines and a blank line |
| FileUtils.ListWritesPrefix | file_utils.py:169-174 | the writes for the first n records come first in the writes for the whole list |
| FileUtils.ListWritesBlocks | file_utils.py:169-174 | the block of record i (header with i+1, its lines, "\n") follows the blocks of the records before it |
| FileUtils.AllKeysIsUnion | file_utils.py:104-106 | the collected field names are exactly the keys of some record |
| FileUtils.CsvFieldnames | file_utils.py:100-115 | the CSV header is the sorted key set of the one record, or the sorted union of all records' keys; an empty list writes no header |
| FileUtils.ElementName | file_utils.py:123-128 | an XML element name has no space and the key's length |
| FileUtils.ElementNameRecoversKey | file_utils.py:123-128 | for a key without underscores, the element name maps back to the key |
| FileUtils.FieldElements | file_utils.py:122-129 | one element per field, in item order, named by `ElementName` and holding `str(value)` |
| FileUtils.XmlTree | file_utils.py:117-129 | a list gives "Metadata_Collection" with one "File" element per record, ids "1".."n", each holding that record's field elements; one record gives "Metadata" holding its field elements |
| FileUtils.XmlExportNeedsWellFormedFields | file_utils.py:117-134 | the XML export is written exactly when every field's element name is a colon-free XML name and every field's text is made of XML characters; otherwise `minidom.parseString` raises and the export fails |
| FileUtils.BadKeyFailsXmlExport | file_utils.py:122-132 | a key with a character that is neither a space nor an XML name character makes the export fail |
| FileUtils.FileInfoRecordsFailXmlExport | file_utils.py:58-64 | a record holding "File Size (Formatted)", which `get_file_info` writes whenever `os.stat` succeeds, makes the XML export fail, since `File_Size_(Formatted)` is not an XML name |
| FileUtils.ExifRecordsFailXmlExport | file_utils.py:122-132 | a record holding an "EXIF: " key makes the XML export fail, since the colon leaves an unbound namespace prefix |
| MetadataExtractors.GpsNeedsBothCoordinates | metadata_extractors.py:104-118 | GPS is "Not Available" exactly when a coordinate tag is missing; a decoding failure gives a text starting "Error parsing GPS data" |
| MetadataExtractors.DegreesWithinWholeDegree | metadata_extractors.py:121-125 | d degrees, m < 60 minutes and s < 60 seconds decode to a value in [d, d + 1) |
| MetadataExtractors.ZeroDenominatorIsAnError | metadata_extractors.py:121-124 | a zero denominator in any of the three rationals makes the decoding fail |
| MetadataExtractors.GpsSignFollowsReference | metadata_extractors.py:110-113 | a nonzero latitude (longitude) is negative exactly when its Ref tag is present and its first value is not 'N' ('E') |
| MetadataExtractors.PrefixedSet | metadata_extractors.py:71 | the prefixed names are exactly the prefix followed by a name of the set |
| MetadataExtractors.PrefixKeysFacts | metadata_extractors.py:68-71 | "<prefix><t>" is a key exactly when t was one, with the same value, and every key carries the prefix |
| MetadataExtractors.CopyExifTags | metadata_extractors.py:68-71 | the tag loop builds exactly the "EXIF: " copy of the non-thumbnail tags |
| MetadataExtractors.ExtractExif | metadata_extractors.py:64-84 | the EXIF block gives the copied tags plus the named fields, or only the "EXIF Data" error entry |
| MetadataExtractors.CopyImageInfo | metadata_extractors.py:95-97 | the info loop adds exactly the str/int/float/bool entries under "Image Info: " |
| MetadataExtractors.AddPilFields | metadata_extractors.py:86-99 | the PIL block adds format, mode, size fields and the info entries, or only the "Image Data" error entry |
| MetadataExtractors.ExtractImageMetadata | metadata_extractors.py:61-101 | the image record is the EXIF part overwritten by the PIL part |
| MetadataExtractors.ExifTagsCopied | metadata_extractors.py:68-71 | "EXIF: t" is present exactly for a tag t not starting with "JPEGThumbnail", holding its printable text |
| MetadataExtractors.NamedFieldsAreNotExif | metadata_extractors.py:73-82 | no named field starts with "EXIF: ", so copied tags never shadow them |
| MetadataExtractors.NamedFieldsFallBack | metadata_extractors.py:73-82 | the named fields hold the tag text or "Not Available"; 'Date and Time' falls back from DateTimeOriginal to Image DateTime to "Not Available" |
| MetadataExtractors.ExifErrorReplacesTags | metadata_extractors.py:83-84 | a failed EXIF read leaves only the "EXIF Data" error entry and no "EXIF: " key |
| MetadataExtractors.Trunc | metadata_extractors.py:179 | `int()` truncates toward zero |
| MetadataExtractors.FormatDurationRoundTrip | metadata_extractors.py:178-185 | "H:MM:SS" from an hour up, else "M:SS"; the fields parse back to minutes and seconds below 60 that recombine to the truncated seconds |
| MetadataExtractors.SexagesimalSplit | metadata_extractors.py:179-180 | the two `divmod`s give h*3600 + m*60 + s = n with m, s < 60, and h > 0 exactly from 3600 up |
| MetadataExtractors.PaddedRoundTrip | metadata_extractors.py:183-185 | a `:02d` field holds no colon and parses back to its number |
| MetadataExtractors.FirstAlias | metadata_extractors.py:164-171 | the first alias present in list order, or none when no alias is present |
| MetadataExtractors.TitleWordInjective | metadata_extractors.py:168 | `title()` keeps distinct lower-case names distinct |
| MetadataExtractors.CommonTagTitlesDistinct | metadata_extractors.py:153-161 | the seven friendly names give seven distinct keys |
| MetadataExtractors.AliasFieldsKeys | metadata_extractors.py:163-171 | alias resolution writes only title-cased friendly names |
| MetadataExtractors.AliasFieldsFirstWins | metadata_extractors.py:163-171 | a friendly name is present exactly when one of its aliases is, holding the first present alias's text (a one-element list unwrapped) |
| MetadataExtractors.ResolveAlias | metadata_extractors.py:164-171 | the inner loop with `break` writes the first present alias, or nothing |
| MetadataExtractors.ResolveAliases | metadata_extractors.py:163-171 | the outer loop writes exactly the resolved aliases over the tag copy |
| MetadataExtractors.FirstAliasIs | metadata_extractors.py:164-166 | the alias at j is the first one when none before it is present |
| MetadataExtractors.CopyAudioTags | metadata_extractors.py:147-151 | every tag is copied under "Tag: <key>" |
| MetadataExtractors.ExtractAudioMetadata | metadata_extractors.py:128-175 | without mutagen, a fixed notice; an error on loading, its message; no audio, nothing; otherwise the stream fields, then either the tags and resolved aliases or, if reading the tags raised, the error entry beside the stream fields already written |
| MetadataExtractors.LaterAudioKeysAvoid | metadata_extractors.py:138-170 | no tag key and no alias title is one of the stream field names or "Audio Data" |
| MetadataExtractors.AudioFailureKeepsStreamFields | metadata_extractors.py:135-173 | "Audio Data" is present exactly when loading or reading the tags raised, and every stream field written before the raise keeps its value |
| MetadataExtractors.ResolutionText | metadata_extractors.py:209 | the text after the first "resolution" holds no comma |
| MetadataExtractors.ResolutionBetween | metadata_extractors.py:209 | the resolution is exactly the text between the first "resolution" and the next comma |
| MetadataExtractors.ResolutionOnlyWhenDescribed | metadata_extractors.py:196-212 | "Media Type" is always "Video"; "Resolution" appears exactly when magic works and the description holds "x" and "resolution" |
| MetadataExtractors.PdfInfoLastWins | metadata_extractors.py:229-232 | a "PDF: " key (one leading '/' dropped) exists exactly for some info entry, and holds the value of the last entry mapping to it |
| MetadataExtractors.CopyPdfInfo | metadata_extractors.py:229-232 | the info loop writes exactly the "PDF: " fields |
| MetadataExtractors.WordsAreNonEmptyAndSpaceFree | metadata_extractors.py:243 | `split()` words are non-empty and hold no whitespace |
| MetadataExtractors.TextStatsCount | metadata_extractors.py:242-247 | Line Count is the number of newlines plus one, Character Count the length |
| MetadataExtractors.ExtractDocumentMetadata | metadata_extractors.py:217-251 | a .pdf with PyPDF2 gives page count, info fields and version, and a raise at any of these steps adds the error entry to the fields written before it; .txt/.csv/.log give text counts (or the error entry); others nothing |
| MetadataExtractors.PdfInfoKeysArePrefixed | metadata_extractors.py:227-232 | every key copied from the document information starts with "PDF: " |
| MetadataExtractors.PdfFailureKeepsEarlierFields | metadata_extractors.py:221-236 | "PDF Data" is present exactly when a PyPDF2 call raised, "PDF Version" exactly when none did, the page count exactly when it was read, and the information fields exactly when they were read |
| MetadataExtractors.AddChecksums | metadata_extractors.py:37-40 | the three checksum entries are written over the file information |
| MetadataExtractors.ExtractCategoryFields | metadata_extractors.py:43-56 | exactly one extractor runs, chosen by category (audio only with mutagen); others add nothing |
| MetadataExtractors.ExtractMetadata | metadata_extractors.py:31-58 | the returned record is `Metadata`: the error entry for a missing file, else info, checksums and category fields in that order |
| MetadataExtractors.MetadataMerge | metadata_extractors.py:35-56 | a key is present iff some part has it; category fields win over checksums, which win over file information |
| MetadataExtractors.ChecksumsWhenAsked | metadata_extractors.py:37-40 | the three checksum keys are added exactly when asked; an unreadable file gives the failure text in all three |
| MetadataExtractors.MetadataWithoutExtractor | metadata_extractors.py:31-58 | a missing file gives exactly {"Error": "File does not exist"}; archives, other files and audio without mutagen add no category keys |
| MetadataExtractors.CsvAndLogGetNoTextStats | metadata_extractors.py:238-247 | ".csv" and ".log" files are category "Other", so `extract_metadata` never gives them text counts |
| FileProcessors.BaseName | file_processors.py:205-206 | `os.path.basename`: the part of the path after its last '/', which holds no '/' |
| FileProcessors.SplitCommonKeys | file_processors.py:181-188 | the loop over the common keys puts each into differences (both values) or similarities (the first value) |
| FileProcessors.CollectEntries | file_processors.py:191-197 | the loop collects the given keys with their values from one record |
| FileProcessors.Compare | file_processors.py:165-207 | `compare` on two extracted records returns exactly `Compared`: the four maps and the two base names |
| FileProcessors.ComparePartitionsKeys | file_processors.py:175-197 | the four key sets are pairwise disjoint and together are the union of both records' keys |
| FileProcessors.CommonKeysSplit | file_processors.py:175-188 | differences and similarities split the common keys between them |
| FileProcessors.OnlyKeys | file_processors.py:191-197 | only_in_file1 holds keys1 − keys2 and only_in_file2 keys2 − keys1 |
| FileProcessors.ComparePlacesKey | file_processors.py:175-197 | each key lands in differences iff in both with unequal values, in similarities iff in both with equal values, else in the "only" map of the record holding it |
| FileProcessors.CompareEntriesAreFromTheRecords | file_processors.py:181-197 | a difference holds both records' (unequal) values, a similarity the first record's value, an "only" entry its record's value |
| FileProcessors.CompareSwap | file_processors.py:165-207 | swapping the inputs swaps the "only" maps, the two sides of each difference and the file names, and keeps the similarity keys |
| FileProcessors.CompareWithItself | file_processors.py:175-197 | a record compared with itself is all similarities |
| FileProcessors.CompareAgreesWithMetadataDiff | file_processors.py:175-197 | the keys of differences and both "only" maps are exactly the keys `compare_metadata` (file_utils.py) reports |
| FileProcessors.MatchesCriteria | file_processors.py:238-296 | a record matches exactly when every criterion holds for it |
| FileProcessors.FilterFiles | file_processors.py:215-236 | the loop keeps exactly the records that match, unchanged |
| FileProcessors.FilteredKeepsExactlyTheMatches | file_processors.py:230-236 | a path is kept iff its record satisfies every criterion, with the record unchanged |
| FileProcessors.FilterByConcatenation | file_processors.py:230-296 | filtering by c1 then by c2 equals filtering by c1 followed by c2 |
| FileProcessors.FilterIdempotent | file_processors.py:230-296 | filtering a filtered result again changes nothing |
| FileProcessors.EmptyCriterionIsSkipped | file_processors.py:245-246 | a criterion with a falsy field or operator does not affect the outcome |
| FileProcessors.MissingFieldRejects | file_processors.py:248-249 | a criterion naming a field the record lacks rejects the record |
| FileProcessors.StringOrderingIsNoConstraint | file_processors.py:254-270 | with string sides, `>` tests nothing: {"size": "10"} and {"size": "20"} both pass `size > "15"` |
| FileProcessors.NumericOrderingApplies | file_processors.py:271-292 | with numeric sides, `>` compares numbers: only size 20 passes `size > "15"` |
| FileProcessors.ConversionFailureRejects | file_processors.py:272-294 | a value `float()` cannot parse rejects the record |
| FileProcessors.StringMatchIgnoresCase | file_processors.py:262-270 | contains/starts_with/ends_with depend only on the lowered texts |
| FileProcessors.BatchProcessor.constructor | file_processors.py:9-18 | empty queue and results, both counts 0, inactive, no workers |
| FileProcessors.BatchProcessor.AddFiles | file_processors.py:20-25 | the existing files are queued in order and counted in `total_count`; nothing else changes |
| FileProcessors.BatchProcessor.ExistingFilesAreTheFiles | file_processors.py:22-25 | a path is queued exactly when it is one of the given paths and is a file |
| FileProcessors.BatchProcessor.Start | file_processors.py:27-40 | nothing when active; otherwise active, `processed_count` 0, results empty, min(max_workers, total_count) workers started |
| FileProcessors.BatchProcessor.ProcessNext | file_processors.py:42-80 | one worker step takes the head of the queue; a record is stored under its path and counted, and the run stops once all are counted; a raise leaves results and count unchanged, keeps the run active and ends that worker, because `except Queue.Empty` raises AttributeError |
| FileProcessors.BatchProcessor.TimeOut | file_processors.py:42-74 | a worker that finds the queue empty for 0.5 s meets the same failing handler and ends; queue, results, counts and the active flag are unchanged |
| FileProcessors.BatchProcessor.WorkerExits | file_processors.py:43 | a worker that finds the run inactive ends; nothing else changes |
| FileProcessors.SecondBatchNeverFinishes | file_processors.py:27-66 | after a finished one-file batch, a second one-file batch processes its file, its queue empties and every worker ends, yet the run stays active, since `total_count` was never reset |
| FileProcessors.BatchProcessor.Stop | file_processors.py:82-90 | inactive with no workers; queue, results and counts unchanged |
| FileProcessors.BatchProcessor.GetResults | file_processors.py:92-93 | no more results than processed files |
| FileProcessors.BatchProcessor.Clear | file_processors.py:95-101 | stopped, with empty queue and results and both counts 0 |
| Runs.SegmentsAreMaximalRuns | FileScope.py:1415-1427 | the runs hold only kept elements, the cut points only rejected ones, there is one run more than cut points, and runs and cut points rejoin to the input |
| Runs.LongRuns | FileScope.py:1421-1427 | the kept runs are runs of the input of at least the minimum length, never more of them than runs |
| Runs.LongRunsConcat | FileScope.py:1421-1427 | keeping the long runs distributes over concatenation |
| Runs.SegmentsAroundRejected | FileScope.py:1419-1423 | a rejected element splits the runs into those before and those after it |
| Runs.SegmentsSnoc | FileScope.py:1415-1423 | one more element extends the last run when kept, and starts a new empty run when rejected |
| Runs.SegmentsOfKept | FileScope.py:1415-1418 | input made only of kept elements is one run |
| BinaryAnalysis.Text | FileScope.py:1418 | the bytes read as characters one for one (`chr`) |
| BinaryAnalysis.ExtractStrings | FileScope.py:1412-1429 | the loop returns exactly the maximal printable runs of at least `min_length`, in order, including a run that ends the data |
| BinaryAnalysis.ExtractStep | FileScope.py:1415-1423 | one byte either extends the current string or closes it, kept when long enough |
| BinaryAnalysis.ExtractFinish | FileScope.py:1425-1427 | keeping the last open string when long enough completes the maximal runs |
| BinaryAnalysis.PrintableStringsShape | FileScope.py:1412-1429 | every returned string has at least `min_length` characters, all with codes 32..126 |
| BinaryAnalysis.ExtractStringsExample | FileScope.py:1412-1429 | b"ABCDE\x00XY" gives ["ABCDE"]: a printable run shorter than 4 at the end is dropped |
| BinaryAnalysis.Chunks | FileScope.py:1355-1356 | one chunk per started block of 1024 bytes |
| BinaryAnalysis.ChunkBounds | FileScope.py:1356 | chunk k exists exactly when it starts before the end of the data |
| BinaryAnalysis.ChunksCoverData | FileScope.py:1355-1356 | the chunks concatenate to the data, none is empty, each has at most 1024 bytes and all but the last exactly 1024 |
| BinaryAnalysis.ChunksPrefix | FileScope.py:1356 | the first m chunks concatenate to the first min(1024 m, len) bytes |
| BinaryAnalysis.ChunkEntropies | FileScope.py:1357 | one entropy per chunk, the k-th being the entropy of chunk k |
| BinaryAnalysis.OccursIffPositive | FileScope.py:1341-1344 | a byte occurs in the data exactly when its count is positive |
| BinaryAnalysis.HistogramSnoc | FileScope.py:1341-1344 | one more byte adds one to its count, starting from 0 for a new byte |
| BinaryAnalysis.ByteCounts | FileScope.py:1340-1344 | the counting loop builds exactly the histogram of the data |
| BinaryAnalysis.CountSumBump | FileScope.py:1341-1344 | one more occurrence raises the sum of the counts by one |
| BinaryAnalysis.HistogramCountsEveryByte | FileScope.py:1340-1344 | every count is positive and the counts sum to the length of the data |
| BinaryAnalysis.UniformDataHasNoEntropy | FileScope.py:1335-1352 | non-empty data of one repeated byte has entropy 0 (given log2(1) = 0); empty data is 0 by definition |
| BinaryAnalysis.BandIsMonotone | FileScope.py:1384-1393 | the bands are tested in order <1, <3, <6, <7.5, else very high, so more entropy never gives a lower band |
| BinaryAnalysis.FlagAndBandAgree | FileScope.py:1371-1393 | a flagged chunk is in the very-high band; exactly 7.5 is very high but not flagged; any other very-high value is flagged |
| BinaryAnalysis.FlaggedChunks | FileScope.py:1371-1374 | the marked chunks are exactly those with entropy above 7.5, in increasing order |
| BinaryAnalysis.HexDigitsWithin | FileScope.py:1307 | a number below 16^w has at most w hex digits |
| BinaryAnalysis.HexFieldWidth | FileScope.py:1307 | `{i:08X}` of an offset below 16^8 is exactly 8 characters |
| BinaryAnalysis.HexByte | FileScope.py:1313 | `{b:02X}` is two hex digits that read back as the byte |
| BinaryAnalysis.HexSlot | FileScope.py:1312-1315 | every hex slot is 3 characters, blank past the end of the data |
| BinaryAnalysis.HexCells | FileScope.py:1311-1315 | 16 hex slots per row |
| BinaryAnalysis.AsciiCells | FileScope.py:1320-1328 | 16 ASCII columns per row |
| BinaryAnalysis.HexLine | FileScope.py:1310-1316 | the inner hex loop builds the 16 slots in order |
| BinaryAnalysis.AsciiLine | FileScope.py:1319-1329 | the inner ASCII loop builds the 16 columns in order |
| BinaryAnalysis.HexDump | FileScope.py:1304-1332 | one row per multiple of 16 below min(len, 4096), row r built at offset 16 r, and the truncation note exactly when len > 4096 |
| BinaryAnalysis.JoinedCellAt | FileScope.py:1310-1316 | width-3 slots joined: slot j sits at columns 3j to 3j + 3 |
| BinaryAnalysis.HexDumpRecoversBytes | FileScope.py:1304-1316 | every previewed byte can be read back from its row (77 characters): the two hex digits at columns 10 + 3j of row k / 16 |
| BinaryAnalysis.RowSlotHoldsByte | FileScope.py:1307-1316 | a row is 77 characters and slot j holds the byte's two hex digits |
| BinaryAnalysis.AsciiColumnsArePrintable | FileScope.py:1320-1328 | every ASCII column is printable, and shows the byte itself exactly when it is in 32..126 |
| BinaryAnalysis.AppCategoryMatchesFileTypes | FileScope.py:463-481 | the app's own table agrees with `FILE_TYPES` on images, audio and video; documents add the office formats; archives are "Other" |
| BinaryAnalysis.SameMembers | FileScope.py:467-470 | the app's image, audio and video lists hold the same extensions as the `FILE_TYPES` rows; its documents are that row plus the office formats |
| BinaryAnalysis.OfficeIsUnlisted | FileScope.py:470 | no row of `FILE_TYPES` lists an office format |
| BinaryAnalysis.CompareSummary | FileScope.py:942-964 | common = similar + different, each file's field count = common + its "only" count, counts of the set operations |
| BinaryAnalysis.SimilarPlusDifferent | FileScope.py:950-954 | the common keys split between differences and similarities |
| BinaryAnalysis.IntersectionAndDifference | FileScope.py:942-944 | a key set is its keys in common plus its keys only in it |
| Config.DefaultConfig | config.py:12-24 | the defaults hold an empty `recent_files` list and a `max_recent_files` of 10 |
| Config.Lookup | config.py:52-53 | `dict.get`: the stored value when the key is present, the caller's default otherwise |
| Config.MergedTakesOnlyDefaultKeys | config.py:33-35 | loading takes the file's value for each default key the file has, keeps the current value of every other key and adds no key the file brings along |
| Config.LoadOfSavedIsIdentity | config.py:28-35 | loading back exactly the settings in memory changes nothing |
| Config.MergeIdempotent | config.py:33-35 | loading the same file twice gives the settings of loading it once |
| Config.SliceTo | config.py:68 | `s[:n]` is a prefix of `s`, of length `min(n, len(s))` for `n >= 0` and dropping `-n` items from the end otherwise |
| Config.AfterAddRecent | config.py:59-70 | adding a recent file changes at most `recent_files`: every other setting keeps its value |
| Config.RemoveFirstDeletesOne | config.py:62-63 | `list.remove` deletes exactly one occurrence when the item is present and leaves the list alone when it is absent |
| Config.RemoveFirstKeepsOrder | config.py:63 | `list.remove` keeps the other entries in their order |
| Config.TouchedMovesToFront | config.py:62-65 | after remove-and-insert the path is first, occurs no more often than before (once if it was new), and the other entries keep their order |
| Config.AddRecentKeepsPathUnique | config.py:59-70 | a path that occurred at most once in the recent list still occurs at most once after it is added again |
| Config.AddRecentPutsPathFirst | config.py:59-70 | with an integer, boolean or `None` limit the call returns normally, the path heads the list whenever the limit allows one entry, the list is at most `max_recent_files` long, and the other entries are a prefix of the old ones in order |
| Config.AddRecentTwiceIsOnce | config.py:59-70 | adding the same path twice in a row leaves the same settings as adding it once |
| Config.AppConfig.constructor | config.py:9-26 | the settings start as the defaults and then go through `load_config` |
| Config.AppConfig.LoadConfig | config.py:28-40 | the settings become the merge of the file's default keys, stay unchanged when there is no file, or fall back to the defaults when reading fails, and every default key stays present |
| Config.AppConfig.CopyDefaultKeys | config.py:33-35 | the copy loop produces exactly the merge and never removes a key |
| Config.AppConfig.Get | config.py:52-53 | returns the stored value of a present key and the default of a missing one |
| Config.AppConfig.Set | config.py:55-57 | the key now maps to the value, nothing else changes, and a later `get` returns it |
| Config.AppConfig.AddRecentFile | config.py:59-70 | the new settings and the normal or raising return are those of `AfterAddRecent` |
| Config.AppConfig.ClearRecentFiles | config.py:72-74 | `recent_files` becomes the empty list and nothing else changes |
| Config.AppConfig.ThemeColors | config.py:76-79 | the dark palette exactly when the theme setting is the string `"dark"`, the light palette otherwise |
| Visualizers.TallyCounts | visualizers.py:57-60 | counting with `d[x] = d.get(x, 0) + 1` gives each value exactly its number of occurrences, and a key exactly for the values that occur |
| Visualizers.TallyOrder | visualizers.py:66-67 | the counter's keys are distinct, are exactly the counted values, and appear in order of first occurrence |
| Visualizers.TallySum | visualizers.py:57-67 | the counts add up to the number of values counted |
| Visualizers.CategoryCounts | visualizers.py:57-60 | the loop over the records builds the tally of their `File Type Category`, with `Unknown` for a record without one |
| Visualizers.CategoryCountsPartitionRecords | visualizers.py:57-77 | every slice of the pie is a positive count of its category, the slices add up to the number of records, and the chart is empty exactly when there are no records |
| Visualizers.SizeBars | visualizers.py:104-114 | the bars are the base names and `File Size` values (0 when missing) of the first ten records, in order |
| Visualizers.SizeBarsShowFirstTen | visualizers.py:104-124 | at most ten bars, none exactly when there are no records, and bar `k` belongs to record `k` |
| Visualizers.KeyCounts | visualizers.py:174-177 | the nested loop over records and keys builds the tally of all keys, in record order |
| Visualizers.KeyCountIsRecordsWith | visualizers.py:174-177 | each key's count is the number of records that have that key, never more than the number of records |
| Visualizers.SortByCountIsStable | visualizers.py:180 | sorting by count in reverse is non-increasing in count, keeps every key, and keeps keys of equal count in their original order |
| Visualizers.TopKeysAreMostFrequent | visualizers.py:180-181 | the heatmap columns are at most ten keys, in non-increasing count, and no key left out has a higher count than one kept |
| Visualizers.Cell | visualizers.py:205 | a cell is 1 exactly when the record has the key and its value is not `"Not Available"`, and 0 otherwise |
| Visualizers.FillMatrix | visualizers.py:199-205 | the matrix has one row per shown file and one column per top key, and each cell is `Cell` of that record and key |
| Visualizers.HeatmapData | visualizers.py:163-205 | the rows are the first eight file names, the columns are the top keys, no matrix is drawn exactly when either is empty, and otherwise each cell is `Cell` of its record and key |
| Visualizers.HeatmapDrawnWithKeys | visualizers.py:184-195 | when some record has a field the heatmap is drawn: both the rows and the columns are non-empty |
| Visualizers.SimilarityPercent | visualizers.py:779-795 | the similarity line is shown exactly when some field was examined, and its percentage lies between 0 and 100 |
| Visualizers.TotalFieldsCountsEveryKey | visualizers.py:779 | the number of fields examined is the number of distinct keys of the two records |
| UiComponents.GpsLine | ui_components.py:414-417 | a GPS string with a comma unpacks into latitude and longitude exactly when it has one comma; otherwise the unpacking raises |
| UiComponents.EntryLine | ui_components.py:413-419 | every field's line starts with `key: `, and the only line that raises is a GPS string with two or more commas |
| UiComponents.CollectAll | ui_components.py:413-419 | the display raises exactly when some field's line raises, and otherwise holds one line per field in order |
| UiComponents.DisplayShowsEveryFieldInOrder | ui_components.py:408-421 | a dictionary is shown as one line per key in sorted key order, each starting with its key; anything else shows "No metadata available." |
| UiComponents.GpsLineIsMapsLink | ui_components.py:414-417 | a `lat,lon` GPS string becomes a Google Maps link to the stripped latitude and longitude |
| UiComponents.GpsWithTwoCommasRaises | ui_components.py:415 | a GPS string with two or more commas makes the whole display raise |
| UiComponents.RaisedStays | ui_components.py:413-419 | once a line raises, the later fields are not shown |
| UiComponents.RenderLines | ui_components.py:413-419 | the insertion loop produces exactly the lines of the rendering and stops at the first line that raises |
| UiComponents.FilteredKeepsExactlyTheMatches | ui_components.py:435-439 | a search keeps exactly the fields whose lower-cased key, or lower-cased string value, contains the query, keeps their values, and searching again changes nothing |
| UiComponents.EmptyQueryMatchesAll | ui_components.py:431-433 | an empty query shows every field |
| UiComponents.SearchIgnoresCase | ui_components.py:429 | lower-casing the query once more keeps the same fields |
| UiComponents.FilterFields | ui_components.py:435-439 | the filtering loop builds exactly the matching fields |
| UiComponents.MetadataDisplayPanel.constructor | ui_components.py:402 | the panel starts with no original metadata and an empty display |
| UiComponents.MetadataDisplayPanel.DisplayMetadata | ui_components.py:404-406 | the metadata is remembered, and the display is its rendering |
| UiComponents.MetadataDisplayPanel.UpdateDisplay | ui_components.py:408-423 | the display becomes the rendering of the given value, and the remembered metadata is untouched |
| UiComponents.MetadataDisplayPanel.OnSearch | ui_components.py:425-441 | with no remembered metadata nothing changes; otherwise the display is the rendering of the fields matching the lower-cased query |
| UiComponents.MetadataDisplayPanel.Clear | ui_components.py:443-447 | the display is emptied and the remembered metadata is forgotten |
| UiComponents.UploadFilterOfCategory | ui_components.py:152-162 | for each category of `FILE_TYPES` the dialog filter is that category with its extensions joined by spaces, and splitting the pattern gives back exactly those extensions |
| UiComponents.UploadFilterOtherwise | ui_components.py:152-162 | a file type that names no category gets the "All Files" filter |

## Left out

- Tk widgets, dialogs, menus, theme repainting and matplotlib/numpy drawing are not modelled. The panel's text is modelled as the sequence of inserted lines, and a chart as the data handed to it.
- `BatchProcessor`'s thread interleavings, joins and progress callbacks (file_processors.py:36-90) are left out because they are concurrency. Worker steps are modelled one at a time. The handler `except Queue.Empty` at file_processors.py:72 looks up `Empty` on the `Queue` class imported at file_processors.py:3, which has no such attribute. Evaluating it raises AttributeError, so any extraction error and any 0.5 s timeout on an empty queue end that worker. `processed_count` is then not advanced and `active` can stay true. The `except Exception` branch at file_processors.py:76-80 is never reached and is not modelled.
- The foreign libraries are left out: hashlib, exifread, PIL, mutagen, PyPDF2, python-magic, `os.stat`, `os.path.exists`/`isfile`, `datetime` and `json`. Their results for a file are inputs (`FileEnv`, `LoadOutcome`), and a digest is an abstract function of the algorithm and the bytes fed.
- Float formatting is left out: `.2f` sizes, `.6f` GPS, megapixel rounding, percentages, `str()` of a float and `float()` parsing of a string. These are function parameters, so floats are `real` with no rounding and no NaN.
- The `np.log2` entropy value itself is left out. The model proves the byte histogram it is computed from, and takes the entropy as a `real` for the bands.
- `str.lower()` is modelled for ASCII letters only. Text with non-ASCII capitals lowers differently from Python, including an extension that Python lowers to ASCII: `.M\u212AV`, with U+212A KELVIN SIGN, is "Other" in the model and "Video" in Python. Searches and case-insensitive filters on such text differ in the same way.
- Dictionary iteration order is kept only where it is observable: the visualizer loops, the PDF info dictionary and the audio alias lists use sequences. Elsewhere records are maps.
- `MetadataExtractors.ExtractAudioMetadata`: an exception raised by `str()` midway through the tag or alias loops (metadata_extractors.py:148-170) is modelled as raised before the first tag is copied, so tags copied before it are not kept. A raise while reading the stream fields is modelled as one on loading.
- `MetadataExtractors.ExtractDocumentMetadata`: an exception raised by `str()` midway through the information loop (metadata_extractors.py:229-232) is modelled as raised by `getDocumentInfo`, so information fields copied before it are not kept.
- `MetadataExtractors.ExtractExif`: an exception raised by `str()` after some tags were already copied is modelled as raised before any write. The model then holds only the `EXIF Data` error key, where the source would also keep the tags copied so far.
- `Config`: the JSON file I/O of `load_config` and all of `save_config` are left out. A config file whose top level is not a JSON object is treated as a failed load. JSON values compare structurally rather than by Python's numeric `==`; every comparison the code makes has a string on one side, where the two agree.
- `Config.AppConfig`: `default_config.copy()` is shallow, so the default `recent_files` list is shared with the live settings. This aliasing is not modelled; nothing reads `default_config` after start-up except the reset in `load_config`.
- `visualizers.py`: the `all_keys` set of the heatmap (visualizers.py:163-171) is left out because nothing uses it. The timeline view (visualizers.py:237-324) is left out because it rests on `strptime`. The comparison view's widgets are left out, and only its counts are modelled.
- `visualizers.py`: shortening the heatmap column labels to their last 20 characters (visualizers.py:220) is left out as a drawing detail.
- `FileUploadPanel.upload_batch` repeats the filter choice of `upload_file`; both are modelled by `UiComponents.UploadFilter`.
- The HTML export is left out because it embeds the current time. The JSON export and the layout `toprettyxml` gives are left out as library formatting. The text layout, the CSV header, the XML element tree and whether its reparse succeeds are modelled.
- `FileUtils.XmlExport`: names are checked against the character classes of XML 1.0, fifth edition, section 2.3, and the colon is refused outright. expat's own tables may differ for rare non-ASCII characters. The predeclared `xml:` prefix, which the parser would accept, is treated as a failure too.
- Attack tooling and file writers in FileScope.py are left out: PDF JavaScript injection, the metadata faker, the signature spoofer and metadata stripping. So is `FileRemover` (file_processors.py:104-162). They write files through libraries.
- Regex-driven scans are left out: suspicious-string highlighting through the Tk text search and the PDF byte scans.
- The theme palettes and `FILE_TYPES` are copied from constants.py as written, as constant tables. `EXPORT_FORMATS` feeds only the export dialog's widgets (ui_components.py:1142, 1228), so it is left out with them. `COMMON_METADATA_FIELDS` and the application name, version and author are left out because the modelled code does not read them.
