# PyWord bookkeeping core in Dafny

PyWord is a word processor built on PySide6. Besides its Qt widgets, its feature managers keep ordinary lists, dictionaries and strings. This project models that Qt-free bookkeeping and proves properties of it:

- the open-document session, page setup and editor zoom;
- the RTF and HTML export strings;
- the numbering engines: Roman numerals, bijective base-26 letters, symbol marks, and per-type renumbering by document position;
- the table of contents and the document-map heading scan;
- comments, tracked changes, review modes, cross-references and citations;
- mail merge;
- the small state machines: security, automation, sections, headers and footers, columns, shapes, performance, images, styles and accessibility.

There is one Dafny module per source file. `Common` holds the Python string and list helpers. `Json` holds the dictionary values that the `to_dict`/`from_dict` pairs exchange. `Numerals` and `Ranking` hold the number systems and the position ranking that several formatters share.

The managers that update their state in place are classes. Each method's postcondition states the whole new state in terms of the old one, and the properties the source promises are proved about the specification functions. Wherever the source asks a `QTextCursor` or `QTextDocument` for a position or for text, that position or text is a parameter. Identifiers, random salts and clock readings are parameters too.

## Model

| member | source | states |
|---|---|---|
| Numerals.RomanFromStep | pyword/pyword/features/page_numbers.py:180-201 | one pass of the value table writes all copies of the current numeral, then converts the remainder with the later entries |
| Numerals.RomanFromSkip | pyword/pyword/features/page_numbers.py:180-201 | table entries larger than the remaining number add nothing |
| Numerals.RomanGroup | pyword/pyword/features/page_numbers.py:180-201 | the four table entries of one decimal place write that digit in the nine/five/four/one pattern |
| Numerals.DigitTables | pyword/pyword/features/page_numbers.py:180-201 | the hundreds, tens and ones digit tables follow that pattern for every digit |
| Numerals.RomanIsDigitwise | pyword/pyword/features/page_numbers.py:180-201 | the greedy subtraction over the thirteen-entry table equals the standard digit-by-digit Roman numeral (thousands as repeated M) |
| Numerals.RomanBelowThousand | pyword/pyword/features/page_numbers.py:180-201 | below 1000 the numeral is the hundreds, tens and ones forms concatenated |
| Numerals.RomanFromLetters | pyword/pyword/features/page_numbers.py:180-201 | a Roman numeral uses only the letters I V X L C D M |
| Numerals.RomanZero | pyword/pyword/features/page_numbers.py:180-201 | example: 0 converts to the empty string |
| Numerals.Alpha | pyword/pyword/features/page_numbers.py:203-214 | the bijective base-26 form is empty exactly for 0 and otherwise consists of capital letters |
| Numerals.AlphaValueOfAlpha | pyword/pyword/features/page_numbers.py:203-214 | reading the letters back in base 26 gives the number |
| Numerals.AlphaOfAlphaValue | pyword/pyword/features/page_numbers.py:203-214 | every string of capitals is the letter form of the number it denotes |
| Numerals.AlphaInjective | pyword/pyword/features/page_numbers.py:203-214 | two numbers with the same letter form are equal |
| Numerals.AlphaExamples | pyword/pyword/features/page_numbers.py:203-214 | example: 1 is A, 26 is Z, 27 is AA, 52 is AZ, 53 is BA |
| Ranking.ComputeRank | pyword/pyword/features/captions.py:193-208 | one pass over the list computes the item's rank in the stable position order of its group |
| Ranking.RankBound | pyword/pyword/features/captions.py:193-208 | in a group of m items every rank lies in 0..m-1 |
| Ranking.RankMonotone | pyword/pyword/features/captions.py:193-208 | an item that precedes another (smaller position, or equal position and earlier in the list) gets a smaller rank |
| Ranking.RankInjective | pyword/pyword/features/captions.py:193-208 | two distinct items of one group never share a rank |
| Ranking.RankOrder | pyword/pyword/features/captions.py:193-208 | rank order and stable position order agree in both directions |
| Ranking.MembersSize | pyword/pyword/features/captions.py:186-191 | grouping by type collects exactly the group's items |
| Ranking.Below | pyword/pyword/features/captions.py:193-208 | the numbers 0..m-1, each once |
| Ranking.RanksFillGroup | pyword/pyword/features/captions.py:193-208 | every rank 0..m-1 is taken by some member of a group of size m, so the ranks are a permutation of 0..m-1 |
| Captions.FormattedNumber | pyword/pyword/features/captions.py:60-79 | no number gives ""; otherwise the number in the chosen style, prefixed by "chapter." exactly when chapters are included and the chapter number is set and non-zero |
| Captions.NumberTextReadsBack | pyword/pyword/features/captions.py:60-79 | each numbering style reads back: decimal digits give the number, the Roman form is the standard numeral, the letters decode in base 26 |
| Captions.ChapterPrefix | pyword/pyword/features/captions.py:60-79 | the chapter form is "chapter." followed by the plain form, and it appears only with a non-zero chapter number |
| Captions.ToRoman | pyword/pyword/features/captions.py:81-96 | the table loop yields the count-based conversion, which for a non-negative number is the standard Roman numeral |
| Captions.ToAlphabetic | pyword/pyword/features/captions.py:98-105 | the letter loop yields the bijective base-26 form; zero and negatives give "" |
| Captions.Renumbered | pyword/pyword/features/captions.py:184-208 | renumbering keeps the number of captions |
| Captions.RenumberedFields | pyword/pyword/features/captions.py:184-208 | renumbering changes only number and chapter number, sets the chapter number to 1, and keeps types and positions |
| Captions.RenumberedRestart | pyword/pyword/features/captions.py:184-208 | with restart_each_chapter every caption gets number 1 |
| Captions.RenumberedRange | pyword/pyword/features/captions.py:184-208 | without restart, the captions of each type get numbers in 1..k, k being the number of captions of that type |
| Captions.RenumberedOrder | pyword/pyword/features/captions.py:184-208 | without restart, numbers within a type follow position order with ties going to the earlier caption, in both directions |
| Captions.RenumberedOnto | pyword/pyword/features/captions.py:184-208 | without restart, every number 1..k is used by a caption of the type |
| Captions.RenumberList | pyword/pyword/features/captions.py:184-208 | the renumbering loop produces the renumbered list |
| Captions.CaptionsManager.constructor | pyword/pyword/features/captions.py:111-133 | no captions, arabic numbering, no chapters, no restart, the default prefixes and ": " separator |
| Captions.CaptionsManager.RenumberCaptions | pyword/pyword/features/captions.py:184-208 | the captions become their renumbered list and the settings are unchanged |
| Captions.CaptionsManager.AddCaption | pyword/pyword/features/captions.py:135-147 | the new caption is appended, the list is renumbered, and the result is the last caption |
| Captions.CaptionsManager.EditCaption | pyword/pyword/features/captions.py:149-155 | succeeds exactly when some caption has the id; then only the first such caption's text changes, otherwise nothing changes |
| Captions.CaptionsManager.DeleteCaption | pyword/pyword/features/captions.py:157-164 | succeeds exactly when some caption has the id; then the first such caption is removed and the rest renumbered, otherwise nothing changes |
| Captions.CaptionsManager.GetCaptionById | pyword/pyword/features/captions.py:166-171 | a result has the id and is in the list; None exactly when no caption has the id |
| Captions.CaptionsManager.GetCaptionByLabel | pyword/pyword/features/captions.py:173-178 | a result is a caption with that label; None exactly when no caption has it |
| Captions.CaptionsManager.GetCaptionsByType | pyword/pyword/features/captions.py:180-182 | exactly the captions of the type |
| Captions.CaptionsManager.PrefixFor | pyword/pyword/features/captions.py:338-345 | the configured prefix for the type, or the capitalised type name |
| Captions.CaptionsManager.GetCaptionReference | pyword/pyword/features/captions.py:338-345 | None exactly for an unknown id; otherwise the prefix, a space and the formatted number |
| Captions.DefaultFigureReference | pyword/pyword/features/captions.py:338-345 | in the default settings a renumbered figure caption is referred to as "Figure k", k being its rank among the figures plus one |
| Footnotes.SymbolMark | pyword/features/footnotes.py:188-197 | the symbols style fails (IndexError) exactly below -5; otherwise its mark starts with symbol (n-1) mod 6 |
| Footnotes.NoteNumberText | pyword/features/footnotes.py:173-199 | the formatter fails exactly for the symbols style below -5, every other style and number gives a text |
| Footnotes.SymbolMarkUniform | pyword/features/footnotes.py:173-199 | for every positive number the symbols style is one rule: symbol (n-1) mod 6, repeated (n-1) div 6 + 1 times |
| Footnotes.SymbolMarkInjective | pyword/features/footnotes.py:173-199 | distinct positive numbers get distinct symbol marks |
| Footnotes.AlphabeticReadsBack | pyword/features/footnotes.py:173-199 | the lower-case letter style is the base-26 letter form in lower case |
| Footnotes.ToRoman | pyword/features/footnotes.py:201-216 | the table loop yields the lower-cased count-based Roman conversion |
| Footnotes.ToLowerAlpha | pyword/features/footnotes.py:173-199 | the letter loop yields the lower-cased base-26 letter form |
| Footnotes.FormatNumber | pyword/features/footnotes.py:173-199 | the formatter yields the note number text of the number in the style, failing exactly where that text is undefined |
| Footnotes.NumberingFor | pyword/features/footnotes.py:151-171 | footnotes and endnotes use their own numbering settings; other note types are never renumbered |
| Footnotes.RenumberedNotes | pyword/features/footnotes.py:151-171 | renumbering keeps the number of notes |
| Footnotes.RenumberedNotesFields | pyword/features/footnotes.py:151-171 | only numbers change, and only of footnotes and endnotes without a custom mark |
| Footnotes.NoteNumbers | pyword/features/footnotes.py:151-171 | an unmarked footnote or endnote gets the text of its rank among its type plus that type's start number, and that text exists |
| Footnotes.NoteCounterRange | pyword/features/footnotes.py:151-171 | with k notes of a type the counters run from the start number to start + k - 1 |
| Footnotes.NoteRankOrder | pyword/features/footnotes.py:151-171 | within a type the counters follow position order, ties by list order, in both directions |
| Footnotes.NumericFootnotesDistinct | pyword/features/footnotes.py:151-171 | under the numeric style two unmarked footnotes never share a number |
| Footnotes.NumberNote | pyword/features/footnotes.py:151-171 | one loop step gives the note its renumbered form |
| Footnotes.RenumberList | pyword/features/footnotes.py:151-171 | the renumbering loop produces the renumbered list |
| Footnotes.FootnotesManager.constructor | pyword/features/footnotes.py:65-80 | no notes, numeric styles, both start numbers 1 |
| Footnotes.FootnotesManager.RenumberNotes | pyword/features/footnotes.py:151-171 | the notes become their renumbered list and the settings are unchanged |
| Footnotes.FootnotesManager.AddFootnote | pyword/features/footnotes.py:82-93 | a footnote is appended, the notes renumbered, and the result is the last note |
| Footnotes.FootnotesManager.AddEndnote | pyword/features/footnotes.py:95-106 | an endnote is appended, the notes renumbered, and the result is the last note |
| Footnotes.FootnotesManager.EditNote | pyword/features/footnotes.py:108-115 | succeeds exactly for a known id; then only the first such note's text and modification time change |
| Footnotes.FootnotesManager.DeleteNote | pyword/features/footnotes.py:117-130 | succeeds exactly for a known id; then the first such note is removed and the rest renumbered |
| Footnotes.FootnotesManager.GetNoteById | pyword/features/footnotes.py:132-137 | a result has the id and is in the list; None exactly when no note has it |
| Footnotes.FootnotesManager.GetNotesByType | pyword/features/footnotes.py:139-149 | exactly the notes of the type (get_footnotes and get_endnotes are its two uses) |
| Footnotes.FootnotesManager.ConvertFootnoteToEndnote | pyword/features/footnotes.py:328-335 | succeeds exactly when the id names a footnote; that note becomes an endnote and the notes are renumbered |
| Footnotes.FootnotesManager.ConvertEndnoteToFootnote | pyword/features/footnotes.py:337-344 | succeeds exactly when the id names an endnote; that note becomes a footnote and the notes are renumbered |
| FootnotesEndnotes.NoteToDict | pyword/features/footnotes_endnotes.py:15-22 | the dictionary has exactly the keys number, text and position |
| FootnotesEndnotes.NoteFromDict | pyword/features/footnotes_endnotes.py:23-28 | missing keys read as 0, "" and 0 |
| FootnotesEndnotes.NoteRoundTrip | pyword/features/footnotes_endnotes.py:15-28 | reading a saved note gives the note back |
| FootnotesEndnotes.LookupSequential | pyword/features/footnotes_endnotes.py:58-70 | in a sequentially numbered list the note numbered k is at index k-1, and no other number occurs |
| FootnotesEndnotes.NotesToValue | pyword/features/footnotes_endnotes.py:149-154 | a note list is saved as a list of the same length |
| FootnotesEndnotes.NotesFromValues | pyword/features/footnotes_endnotes.py:23-28 | the stored notes, one per item and each as Note.from_dict reads it, exactly when every item is a dictionary; None otherwise, where the source raises AttributeError |
| FootnotesEndnotes.NotesRoundTrip | pyword/features/footnotes_endnotes.py:149-159 | reading a saved note list succeeds and gives the list back |
| FootnotesEndnotes.EmitEntry | pyword/features/footnotes_endnotes.py:118-139 | the inner loop emits the numeral value-fits times and leaves the remainder modulo the value |
| FootnotesEndnotes.ToRoman | pyword/features/footnotes_endnotes.py:118-139 | numbers below 1 give ""; otherwise the lower-case standard Roman numeral |
| FootnotesEndnotes.NoteManager.constructor | pyword/features/footnotes_endnotes.py:37-40 | both lists empty |
| FootnotesEndnotes.NoteManager.AddFootnote | pyword/features/footnotes_endnotes.py:42-48 | the new footnote gets number length+1 and is appended; numbering stays sequential |
| FootnotesEndnotes.NoteManager.AddEndnote | pyword/features/footnotes_endnotes.py:50-56 | the new endnote gets number length+1 and is appended; numbering stays sequential |
| FootnotesEndnotes.NoteManager.GetFootnote | pyword/features/footnotes_endnotes.py:58-63 | the first footnote with the number; with sequential numbering, found exactly for 1..length, at index number-1 |
| FootnotesEndnotes.NoteManager.GetEndnote | pyword/features/footnotes_endnotes.py:65-70 | the first endnote with the number; with sequential numbering, found exactly for 1..length |
| FootnotesEndnotes.NoteManager.RenumberFootnotes | pyword/features/footnotes_endnotes.py:92-95 | footnote i gets number i+1 and nothing else changes |
| FootnotesEndnotes.NoteManager.RenumberEndnotes | pyword/features/footnotes_endnotes.py:97-100 | endnote i gets number i+1 and nothing else changes |
| FootnotesEndnotes.NoteManager.RemoveFootnote | pyword/features/footnotes_endnotes.py:72-80 | succeeds exactly when a footnote has the number; it is removed and the rest renumbered; otherwise nothing changes |
| FootnotesEndnotes.NoteManager.RemoveEndnote | pyword/features/footnotes_endnotes.py:82-90 | succeeds exactly when an endnote has the number; it is removed and the rest renumbered |
| FootnotesEndnotes.NoteManager.GetAllFootnotes | pyword/features/footnotes_endnotes.py:102-104 | a copy of the footnote list |
| FootnotesEndnotes.NoteManager.GetAllEndnotes | pyword/features/footnotes_endnotes.py:106-108 | a copy of the endnote list |
| FootnotesEndnotes.NoteManager.GetFootnoteCount | pyword/features/footnotes_endnotes.py:141-143 | the number of footnotes, which under sequential numbering is the highest number in use |
| FootnotesEndnotes.NoteManager.GetEndnoteCount | pyword/features/footnotes_endnotes.py:145-147 | the number of endnotes, which under sequential numbering is the highest number in use |
| FootnotesEndnotes.NoteManager.ClearAllFootnotes | pyword/features/footnotes_endnotes.py:110-112 | footnotes emptied, endnotes kept |
| FootnotesEndnotes.NoteManager.ClearAllEndnotes | pyword/features/footnotes_endnotes.py:114-116 | endnotes emptied, footnotes kept |
| FootnotesEndnotes.NoteManager.ToDict | pyword/features/footnotes_endnotes.py:149-154 | the dictionary has exactly the keys footnotes and endnotes |
| FootnotesEndnotes.NoteManager.FromDict | pyword/features/footnotes_endnotes.py:156-159 | succeeds exactly when both stored lists hold only dictionaries; the footnotes are replaced first and stay replaced when only the endnotes fail; the endnotes are replaced only on success; missing lists read as empty |
| FootnotesEndnotes.ManagerRoundTrip | pyword/features/footnotes_endnotes.py:149-159 | loading a saved manager succeeds for both lists and reproduces them |
| PageNumbers.PositionNamed | pyword/pyword/features/page_numbers.py:7-14 | a position found by name has that name; an unknown name gives None where the source raises KeyError |
| PageNumbers.PositionNameRoundTrip | pyword/pyword/features/page_numbers.py:7-14 | looking a position up by its name gives it back |
| PageNumbers.FormatNamed | pyword/pyword/features/page_numbers.py:16-21 | a format found by name has that name; an unknown name gives None |
| PageNumbers.FormatNameRoundTrip | pyword/pyword/features/page_numbers.py:16-21 | looking a format up by its name gives it back |
| PageNumbers.DefaultFormatStrings | pyword/pyword/features/page_numbers.py:24-41 | a default format string for every one of the seven positions |
| PageNumbers.DefaultSettings | pyword/pyword/features/page_numbers.py:24-41 | disabled, bottom centre, numeric, starting from 1, shown on the first page, all seven format strings |
| PageNumbers.FormatStringsToValue | pyword/pyword/features/page_numbers.py:43-53 | the format strings are saved under the position names, one entry per position |
| PageNumbers.ToDict | pyword/pyword/features/page_numbers.py:43-53 | the dictionary has exactly the six settings keys |
| PageNumbers.LoadFormatStrings | pyword/pyword/features/page_numbers.py:54-70 | every default entry is present, overwritten by a stored string under its position name |
| PageNumbers.FromDict | pyword/pyword/features/page_numbers.py:54-70 | None exactly when the stored position or format name is unknown; otherwise all seven format strings and the stored or default fields |
| PageNumbers.FormatStringsRoundTrip | pyword/pyword/features/page_numbers.py:43-70 | loading saved format strings gives them back |
| PageNumbers.SettingsRoundTrip | pyword/pyword/features/page_numbers.py:43-70 | settings with all seven format strings survive a save and load |
| PageNumbers.UnknownFormatStringSkipped | pyword/pyword/features/page_numbers.py:54-70 | a stored format string under a name that is no position is ignored |
| PageNumbers.PageNumberReadsBack | pyword/pyword/features/page_numbers.py:164-180 | each format reads back: decimal digits, the standard Roman numeral (lower styles are its lower case), base-26 letters |
| PageNumbers.AlphaTextExamples | pyword/pyword/features/page_numbers.py:203-214 | example: 1 is A, 26 is Z, 27 is AA, 52 is AZ, 53 is BA, and every n of 0 or less gives A |
| PageNumbers.EmitEntry | pyword/pyword/features/page_numbers.py:180-201 | the inner loop emits the numeral value-fits times and leaves the remainder |
| PageNumbers.ToRoman | pyword/pyword/features/page_numbers.py:180-201 | the loop yields the Roman text of the number, "" below 1 |
| PageNumbers.ToAlpha | pyword/pyword/features/page_numbers.py:203-214 | the loop yields the letter text of the number, "A" below 1 |
| PageNumbers.PageNumberManager.constructor | pyword/pyword/features/page_numbers.py:76-85 | the default settings |
| PageNumbers.PageNumberManager.SetEnabled | pyword/pyword/features/page_numbers.py:87-92 | only the enabled flag changes |
| PageNumbers.PageNumberManager.SetPosition | pyword/pyword/features/page_numbers.py:94-99 | only the position changes |
| PageNumbers.PageNumberManager.SetFormat | pyword/pyword/features/page_numbers.py:101-106 | only the format changes |
| PageNumbers.PageNumberManager.SetStartFrom | pyword/pyword/features/page_numbers.py:108-113 | a different value is stored as max(1, start); an equal one changes nothing; a start of at least 1 is kept |
| PageNumbers.PageNumberManager.SetShowOnFirstPage | pyword/pyword/features/page_numbers.py:115-120 | only the first-page flag changes |
| PageNumbers.PageNumberManager.SetFormatString | pyword/pyword/features/page_numbers.py:122-127 | only an existing position's entry is replaced; all seven positions stay covered |
| PageNumbers.PageNumberManager.FormatPageNumber | pyword/pyword/features/page_numbers.py:164-180 | the text of start_from + page_num - 1 in the chosen format |
| Document.DocTypeOfMime | pyword/core/document.py:19-25 | a type found for a MIME string has that MIME type; an unknown string gives None where DocumentType(value) raises |
| Document.MimeRoundTrip | pyword/core/document.py:19-25 | every document type is found again from its MIME type |
| Document.ExtensionType | pyword/core/document.py:28-39 | the extension table: html and htm are HTML, rtf RTF, docx DOCX, odt ODT, everything else text |
| Document.FromExtensionDot | pyword/core/document.py:28-39 | leading dots make no difference |
| Document.FromExtensionCase | pyword/core/document.py:28-39 | letter case makes no difference |
| Document.FromExtensionKnown | pyword/core/document.py:28-39 | anything but the six known extensions is plain text |
| Document.SectionToDict | pyword/core/document.py:48-57 | a section is saved under exactly the keys name, content, level and metadata |
| Document.SectionFromDict | pyword/core/document.py:58-67 | missing keys read as "", "", 1 and an empty dictionary |
| Document.SectionRoundTrip | pyword/core/document.py:48-67 | reading a saved section gives it back |
| Document.PathName | pyword/core/document.py:92-93 | the name of a path has no slash and ignores trailing slashes |
| Document.PathNameTrailingSlash | pyword/core/document.py:92-93 | a trailing slash does not change the name |
| Document.PathNameJoin | pyword/core/document.py:92-93 | the name of dir/name is name for any slash-free non-empty name |
| Document.LastDot | pyword/core/document.py:92-93 | the index of the last dot, or None when there is none |
| Document.PathStem | pyword/core/document.py:92-93 | the stem followed by the suffix is the name |
| Document.PathSuffix | pyword/core/document.py:95-96 | the suffix is empty or a dot followed by at least one non-dot character, shorter than the name |
| Document.PostInit | pyword/core/document.py:90-101 | a non-empty file path sets the title to its stem and, when nothing is cached, caches the MIME type of its suffix; a document without sections gets the single section Main; nothing else changes |
| Document.OpenedContentType | pyword/core/document.py:90-125 | a document made with a file path reports the content type of the path's suffix, whatever its document type |
| Document.ContentType | pyword/core/document.py:121-125 | the cached content type, or the document type's MIME type when none is cached, which is then cached; nothing else changes |
| Document.ContentTypeStable | pyword/core/document.py:121-125 | a second read returns the same string and changes nothing |
| Document.SetContentType | pyword/core/document.py:127-135 | the value is cached; a known MIME type also sets the document type, any other value leaves it; nothing else changes |
| Document.ContentTypeAfterSet | pyword/core/document.py:121-135 | after setting a non-empty content type the getter returns it, and for a known MIME type the document type gives the same string once the cache is empty |
| Document.NewDoc | pyword/core/document.py:68-120 | a new document has the title, the section Main, no path, RTF type, empty content, no cached content type and is unmodified |
| Document.NewDocIsPostInit | pyword/core/document.py:68-97 | a new document equals __post_init__ applied to the dataclass defaults with the given title: without a path the title stays and the section Main is added |
| Document.AddSection | pyword/core/document.py:137-148 | exactly one section more, at the end, with the given fields, and the document is marked modified |
| Document.GetSection | pyword/core/document.py:150-155 | the first section with the name; None exactly when no section has it |
| Document.UpdateMetadata | pyword/core/document.py:157-160 | the new keys override old ones, old keys not given are kept, and the document is marked modified |
| Document.SectionsToValue | pyword/core/document.py:162-179 | sections are saved as a list of the same length |
| Document.SectionsFromValues | pyword/core/document.py:194-196 | the stored sections, one per item and each as DocumentSection.from_dict reads it, exactly when every item is a dictionary; None otherwise, where the source raises AttributeError |
| Document.SectionsRoundTrip | pyword/core/document.py:162-204 | reading saved sections succeeds and gives them back |
| Document.ToDict | pyword/core/document.py:162-179 | the dictionary has the eleven saved keys and holds neither the file path nor the modified flag |
| Document.FromDict | pyword/core/document.py:180-204 | None exactly for an unknown document type or a stored section that is not a dictionary; otherwise an unmodified document without path whose first section is Main, followed by the stored sections, and whose timestamps default to now |
| Document.ToDictText | pyword/core/document.py:162-204 | the saved title, content, version, author and type read back |
| Document.ToDictRest | pyword/core/document.py:162-204 | the saved sections, metadata, template, read-only flag, keywords and timestamps read back |
| Document.DocRoundTrip | pyword/core/document.py:162-204 | loading a saved document gives it back without path, cached content type and modified flag, with Main before its sections |
| Document.SectionCharsIsLength | pyword/core/document.py:358-392 | the character count is the length of the sections' text |
| Document.SectionWordsAppend | pyword/core/document.py:358-392 | word counts of sections add up |
| Document.MetadataBase | pyword/core/document.py:358-392 | the computed counts and fields are present under their keys |
| Document.GetMetadata | pyword/core/document.py:358-392 | word, character and section counts over the content and every section, overridden by the document's own metadata keys |
| Document.RecentAfterSpec | pyword/core/document.py:530-556 | without a path the recent list is unchanged; otherwise the path comes first, appears once, the other entries keep their order, and the list is cut to the maximum |
| Document.TargetIndex | pyword/core/document.py:558-600 | the current index, the given index, or the first equal document's index, None when it is not open |
| Document.DocumentManager.constructor | pyword/core/document.py:402-407 | no documents, current index -1, no recent entries |
| Document.DocumentManager.CurrentDocument | pyword/core/document.py:444-449 | a document exactly when the current index is in range, and then the one at it |
| Document.DocumentManager.HasUnsavedChanges | pyword/core/document.py:451-454 | true exactly when some open document is modified |
| Document.DocumentManager.DocumentCount | pyword/core/document.py:456-458 | the number of open documents; with none there is no current document and nothing unsaved |
| Document.DocumentManager.CreateDocument | pyword/core/document.py:460-489 | the new document is appended and becomes current |
| Document.DocumentManager.AddToRecent | pyword/core/document.py:530-556 | the recent list becomes its updated form; nothing else changes |
| Document.DocumentManager.CloseDocument | pyword/core/document.py:558-600 | succeeds exactly for a target in range; that document is removed and the current index pulled back only when it falls off the end |
| Document.DocumentManager.CloseAllDocuments | pyword/core/document.py:602-624 | every document closed, current index -1, recent list kept |
| Document.DocumentManager.GetRecentDocuments | pyword/core/document.py:690-702 | a prefix of the recent list: all of it without a limit, exactly the limit's length when it fits |
| Document.DocumentManager.ClearRecentDocuments | pyword/core/document.py:704-711 | the recent list is emptied |
| Document.AnyModified | pyword/core/document.py:451-454 | true exactly when some document in the list is modified |
| Document.CloseKeepsCurrentInRange | pyword/core/document.py:558-600 | closing keeps the current index in range while a document is left open |
| Editor.ClampZoom | pyword/core/editor.py:184-191 | the result lies in 0.25..4.0, equals the factor when it does, and is the nearer bound otherwise |
| Editor.ZoomedIn | pyword/core/editor.py:169-172 | one step of 0.1 up, capped at 4.0 |
| Editor.ZoomedOut | pyword/core/editor.py:174-177 | one step of 0.1 down, floored at 0.25 |
| Editor.TextEditor.constructor | pyword/core/editor.py:22-30 | the zoom factor starts at 1.0 |
| Editor.TextEditor.ZoomIn | pyword/core/editor.py:169-172 | the zoom factor becomes the zoomed-in value |
| Editor.TextEditor.ZoomOut | pyword/core/editor.py:174-177 | the zoom factor becomes the zoomed-out value |
| Editor.TextEditor.ZoomReset | pyword/core/editor.py:179-182 | the zoom factor becomes 1.0 |
| Editor.TextEditor.SetZoom | pyword/core/editor.py:184-191 | the zoom factor becomes the clamped factor |
| Editor.ZoomStaysInRange | pyword/core/editor.py:169-191 | starting in range, every zoom operation stays in 0.25..4.0 |
| Editor.SetZoomIdempotent | pyword/core/editor.py:184-191 | setting a zoom twice leaves what setting it once left |
| Editor.ZoomInOut | pyword/core/editor.py:169-177 | zooming in then out is the identity away from the bounds |
| Editor.DropSpacesLength | pyword/core/editor.py:373-385 | removing spaces drops exactly the space characters |
| Editor.WordCountOf | pyword/core/editor.py:373-385 | words are the whitespace-separated words, characters the length, paragraphs one more than the newlines, and characters without spaces the length minus the spaces |
| Editor.OnlySpacesDropped | pyword/core/editor.py:373-385 | example: tabs and newlines still count as characters without spaces |
| Editor.EmptyText | pyword/core/editor.py:373-385 | example: empty text has no words and one paragraph |
| PageSetup.OrientationNamed | pyword/core/page_setup.py:6-10 | an orientation found by name has that name; None exactly for names other than PORTRAIT and LANDSCAPE |
| PageSetup.MarginsToDict | pyword/core/page_setup.py:25-37 | margins are saved under exactly the seven margin keys |
| PageSetup.MarginsFromDict | pyword/core/page_setup.py:38-50 | missing keys take their defaults; an empty dictionary gives the default margins |
| PageSetup.MarginsRoundTrip | pyword/core/page_setup.py:25-50 | reading saved margins gives them back |
| PageSetup.MarginsMissingKey | pyword/core/page_setup.py:38-50 | dropping one key resets exactly that margin to its default |
| PageSetup.EffectivePageSize | pyword/core/page_setup.py:59-63 | the two page dimensions, larger first in landscape and smaller first in portrait |
| PageSetup.EffectiveSizeSwap | pyword/core/page_setup.py:59-63 | the effective size does not depend on which dimension was stored as the width |
| PageSetup.SetupToDict | pyword/core/page_setup.py:65-75 | a page setup is saved under exactly five keys |
| PageSetup.SetupFromDict | pyword/core/page_setup.py:76-84 | None exactly for an unknown orientation name; an empty dictionary gives the default setup |
| PageSetup.SetupRoundTrip | pyword/core/page_setup.py:65-84 | reading a saved page setup gives it back |
| FileFormats.RtfEscaped | pyword/core/file_formats.py:517-522 | the character-wise escape is one character longer per backslash and brace |
| FileFormats.EscapeRtfIsCharwise | pyword/core/file_formats.py:517-522 | the three replacements, backslashes first, escape each character on its own |
| FileFormats.RtfRoundTrip | pyword/core/file_formats.py:517-522 | reading the control symbols back gives the text, and the escape adds one character per backslash and brace |
| FileFormats.UnescapeEscaped | pyword/core/file_formats.py:517-522 | decoding the character-wise escape gives the text back |
| FileFormats.ScanAppend | pyword/core/file_formats.py:465-515 | group depth scanning composes over concatenation |
| FileFormats.EscapedScan | pyword/core/file_formats.py:517-522 | escaped text never changes the group depth |
| FileFormats.CreateRtf | pyword/core/file_formats.py:465-515 | the accumulated string is the RTF text of the document |
| FileFormats.RtfFrontLoop | pyword/core/file_formats.py:465-490 | header, title, author and content are appended in order |
| FileFormats.RtfSectionLoop | pyword/core/file_formats.py:492-510 | one section: its heading by level, then its paragraphs |
| FileFormats.RtfParagraphLoop | pyword/core/file_formats.py:484-490 | the paragraph loop yields the body text of the paragraphs |
| FileFormats.RtfParagraphsAppend | pyword/core/file_formats.py:484-490 | paragraph output composes over concatenation |
| FileFormats.RtfSectionsAppend | pyword/core/file_formats.py:492-510 | section output composes over concatenation |
| FileFormats.BlankParagraphOmitted | pyword/core/file_formats.py:484-490 | a whitespace-only paragraph contributes nothing |
| FileFormats.SectionScan | pyword/core/file_formats.py:492-510 | a section's RTF keeps the group depth |
| FileFormats.HeaderScan | pyword/core/file_formats.py:465-472 | the header leaves exactly the document group open |
| FileFormats.FrontScan | pyword/core/file_formats.py:465-490 | everything before the sections leaves the document group open |
| FileFormats.RtfBalanced | pyword/core/file_formats.py:465-515 | the RTF text opens with the header, closes with a brace, and its groups are balanced once escaped braces are read as text |
| FileFormats.HtmlEscaped | pyword/core/file_formats.py:680-687 | the character-wise escape contains no <, >, double or single quote |
| FileFormats.HtmlChainIsEscaped | pyword/core/file_formats.py:680-687 | the five replacements, ampersand first, act as the character-wise escape |
| FileFormats.EscapeHtmlIsCharwise | pyword/core/file_formats.py:680-687 | the escape function equals the character-wise escape |
| FileFormats.UnescapeHtmlEscaped | pyword/core/file_formats.py:680-687 | decoding the character-wise escape gives the text back |
| FileFormats.HtmlRoundTrip | pyword/core/file_formats.py:680-687 | the escaped text holds no markup characters and decoding it gives the text back |
| FileFormats.CreateHtml | pyword/core/file_formats.py:621-678 | the accumulated string is the HTML text of the document |
| FileFormats.HtmlFrontLoop | pyword/core/file_formats.py:621-657 | head, style block, title, byline and content in the order they are appended |
| FileFormats.HtmlHeadLoop | pyword/core/file_formats.py:621-633 | doctype, charset, title and meta lines |
| FileFormats.HtmlSectionLoop | pyword/core/file_formats.py:659-674 | one section: its heading by level, then its paragraphs |
| FileFormats.HtmlParagraphLoop | pyword/core/file_formats.py:652-657 | the paragraph loop yields the body of the paragraphs |
| FileFormats.HtmlParagraphsAppend | pyword/core/file_formats.py:652-657 | paragraph output composes over concatenation |
| FileFormats.HtmlSectionsAppend | pyword/core/file_formats.py:659-674 | section output composes over concatenation |
| FileFormats.BlankHtmlParagraphOmitted | pyword/core/file_formats.py:652-657 | a whitespace-only paragraph contributes nothing |
| FileFormats.HtmlFrame | pyword/core/file_formats.py:621-678 | the HTML starts with the doctype and charset and ends by closing body and document |
| FileFormats.Lookup | pyword/core/file_formats.py:703-706 | the handler stored under the key; None exactly when the key is absent |
| FileFormats.KeysAppend | pyword/core/file_formats.py:738-756 | the supported-format lists compose over table concatenation |
| FileFormats.SupportedImportFormats | pyword/core/file_formats.py:738-744 | the loop lists the table keys whose handler can import, in table order |
| FileFormats.SupportedExportFormats | pyword/core/file_formats.py:746-756 | the loop lists the table keys whose handler can export, in table order |
| FileFormats.KeysSpec | pyword/core/file_formats.py:738-756 | with distinct keys a key is listed exactly when its handler can import (export) |
| FileFormats.HandlerKeysDistinct | pyword/core/file_formats.py:693-701 | table fact: the handler table's keys are distinct |
| FileFormats.UnknownExtension | pyword/core/file_formats.py:703-716 | an unknown extension has no handler and can be neither imported nor exported |
| FileFormats.SupportedFormats | pyword/core/file_formats.py:703-756 | the supported-format lists agree with can_import and can_export on every normalised extension |
| FileFormats.LookupAt | pyword/core/file_formats.py:703-706 | in a table with distinct keys each key finds its own handler |
| FileFormats.PdfNeverImported | pyword/core/file_formats.py:296-308 | PDF is never listed for import, whatever libraries are installed |
| FileFormats.AlwaysExported | pyword/core/file_formats.py:397-408 | RTF, HTML and HTM are always listed for export |
| References.EntryToDict | pyword/pyword/features/references.py:26-36 | an entry is saved under exactly text, level, position, page_number and children |
| References.EntriesToValues | pyword/pyword/features/references.py:26-36 | one saved child per child |
| References.EntryFromDict | pyword/pyword/features/references.py:37-46 | None where the source raises (missing text, level or position, or a child that is not a dictionary); page_number defaults to 0 |
| References.EntriesFromValues | pyword/pyword/features/references.py:37-46 | a loaded child list has one entry per stored item |
| References.EntryRoundTrip | pyword/pyword/features/references.py:26-46 | loading a saved entry restores the whole tree (given fuel for its height) |
| References.EntriesRoundTrip | pyword/pyword/features/references.py:26-46 | loading saved children restores them |
| References.MissingKeyFails | pyword/pyword/features/references.py:37-46 | a missing text or position key makes loading fail |
| References.Flatten | pyword/pyword/features/references.py:275-286 | the preorder lists at least the top-level entries |
| References.FlattenEntry | pyword/pyword/features/references.py:279-286 | an entry's preorder starts with the entry |
| References.FlattenAppend | pyword/pyword/features/references.py:275-286 | preorder composes over concatenation |
| References.FlattenInto | pyword/pyword/features/references.py:279-286 | the recursive helper appends the preorder of the entries |
| References.GetEntriesFlat | pyword/pyword/features/references.py:275-286 | the flat list is the preorder of the entries |
| References.FlattenContains | pyword/pyword/features/references.py:275-286 | every entry and every child of an entry is in the flat list |
| References.WithDepthFlatten | pyword/pyword/features/references.py:301-348 | the depth-annotated preorder lists exactly the flat entries |
| References.MarkdownLinesPreorder | pyword/pyword/features/references.py:336-348 | one Markdown line per entry in preorder, indented two spaces per level |
| References.TextLinesPreorder | pyword/pyword/features/references.py:301-316 | one text line per entry in preorder, indented by depth, with the page number when shown |
| References.MarkdownLinesAppend | pyword/pyword/features/references.py:340-348 | Markdown lines compose over concatenation |
| References.TextLinesAppend | pyword/pyword/features/references.py:305-316 | text lines compose over concatenation |
| References.MarkdownInto | pyword/pyword/features/references.py:340-348 | the recursive helper appends the Markdown lines of the entries |
| References.TextInto | pyword/pyword/features/references.py:305-316 | the recursive helper appends the text lines of the entries |
| References.ExportText | pyword/pyword/features/references.py:301-316 | the title line followed by the text lines, joined by newlines |
| References.ExportMarkdown | pyword/pyword/features/references.py:336-348 | the title line followed by the Markdown lines, joined by newlines |
| References.ExportsOpenWithTitle | pyword/pyword/features/references.py:301-348 | both exports open with their title line |
| References.HashHeadingLevel | pyword/pyword/features/references.py:103-112 | a level exactly when the stripped text starts with #; the level is the number of leading # capped at 9 and at least 1 |
| References.LeadingHashesUnique | pyword/pyword/features/references.py:103-112 | at most one count of leading # fits a text |
| References.Levels | pyword/pyword/features/references.py:135-167 | the level of each scanned heading |
| References.LatestAtMost | pyword/pyword/features/references.py:135-167 | the last earlier level at most i, or -1, with nothing later at most i |
| References.LatestAtMostUnique | pyword/pyword/features/references.py:135-167 | those three properties determine it |
| References.Parent | pyword/pyword/features/references.py:135-167 | the entry filed as parent is the nearest earlier entry with a strictly lower level, or -1 for a root |
| References.ParentIs | pyword/pyword/features/references.py:135-167 | an entry is the parent exactly when it is below the level and nothing between them is |
| References.LevelOneIsRoot | pyword/pyword/features/references.py:135-167 | level-1 entries are always roots |
| References.Slot | pyword/pyword/features/references.py:135-167 | the stack slot of a level holds its last entry unless a later entry at that level or lower cleared it |
| References.SlotSnoc | pyword/pyword/features/references.py:135-167 | filing an entry puts it in its slot, clears the slots above and keeps those below |
| References.SlotsBelow | pyword/pyword/features/references.py:135-167 | below a level the slots are empty down to the latest shallower entry |
| References.ParentSearch | pyword/pyword/features/references.py:135-167 | scanning the slots downwards finds the parent, or none |
| References.Kids | pyword/pyword/features/references.py:135-167 | the children filed under an entry within a range, in order |
| References.KidsMembers | pyword/pyword/features/references.py:135-167 | exactly the entries in range whose parent is the entry |
| References.KidsIncreasing | pyword/pyword/features/references.py:135-167 | children are listed in document order |
| References.End | pyword/pyword/features/references.py:135-167 | the first later entry at the same level or shallower closes an entry's nested run |
| References.EndNested | pyword/pyword/features/references.py:135-167 | a nested entry closes no later than its encloser |
| References.NextInChain | pyword/pyword/features/references.py:135-167 | the entry after a child's nested run is still inside the parent and visible from it |
| References.KidsFrom | pyword/pyword/features/references.py:135-167 | a visible entry inside a parent is its child, and the entries it encloses are not |
| References.Enclosed | pyword/pyword/features/references.py:135-167 | entries nested under a child are not children of the parent |
| References.KidsChain | pyword/pyword/features/references.py:135-167 | the children from a visible position on form the chain of nested runs |
| References.ChildrenAreChain | pyword/pyword/features/references.py:135-167 | the children of each entry (or the roots) are the chain of positions nested directly under it |
| References.ChildDeeper | pyword/pyword/features/references.py:135-167 | every child is at a strictly deeper level than its parent |
| References.FindParent | pyword/pyword/features/references.py:147-152 | the downward slot scan returns the latest earlier entry with a lower level |
| References.ClearAbove | pyword/pyword/features/references.py:162-164 | the slots above the level are cleared and the others kept |
| References.FileInStack | pyword/pyword/features/references.py:160-164 | after filing, the stack describes the levels seen so far |
| References.FileEntry | pyword/pyword/features/references.py:144-164 | after one more entry is filed, the roots and every child list are exactly those of the entries filed so far, and the stack describes their levels |
| References.BuildHierarchy | pyword/pyword/features/references.py:135-167 | the roots are the entries without parent and each entry's children are exactly the entries filed under it |
| References.Bares | pyword/pyword/features/references.py:135-167 | one childless copy per entry |
| References.BaresAppend | pyword/pyword/features/references.py:135-167 | childless copies compose over concatenation |
| References.TreesInChain | pyword/pyword/features/references.py:135-167 | the value trees from a position are the trees of its chain |
| References.ForestIsGraph | pyword/pyword/features/references.py:135-167 | the value hierarchy has the roots and children of the object graph |
| References.TreesPreorder | pyword/pyword/features/references.py:135-167 | flattening the trees of a range gives back the entries of that range |
| References.FlattenForest | pyword/pyword/features/references.py:135-167 | get_entries_flat after _build_hierarchy returns the scanned headings in their original order |
| DocumentMap.Classify | pyword/pyword/ui/panels/document_map_panel.py:122-172 | a heading found on a line carries that line's number, a level from 1 to 6 and non-empty text |
| DocumentMap.ClassifyLine | pyword/pyword/ui/panels/document_map_panel.py:122-172 | a # line is a heading exactly when text is left after its marks, its level being the mark count capped at 6; otherwise an all-capitals line of length 4 to 99 is a level-1 heading |
| DocumentMap.Classified | pyword/pyword/ui/panels/document_map_panel.py:122-172 | each line is classified with its one-based number |
| DocumentMap.CollectMembers | pyword/pyword/ui/panels/document_map_panel.py:122-172 | a heading is reported exactly when some line classifies to it |
| DocumentMap.CollectOrdered | pyword/pyword/ui/panels/document_map_panel.py:122-172 | reported headings have strictly increasing line numbers within the text and levels 1 to 6 |
| DocumentMap.CollectExactly | pyword/pyword/ui/panels/document_map_panel.py:122-172 | over any classification numbered by line, a heading is collected exactly when its own line holds it |
| DocumentMap.ExtractedHeadings | pyword/pyword/ui/panels/document_map_panel.py:122-172 | reported headings are exactly the classifications of their lines, in line order |
| DocumentMap.SourceText | pyword/pyword/ui/panels/document_map_panel.py:122-172 | no text is read without a document or from a document with neither text accessor |
| DocumentMap.ExtractHeadings | pyword/pyword/ui/panels/document_map_panel.py:122-172 | no document gives no headings; otherwise the loop returns the headings of the text's lines |
| DocumentMap.CollectHeadings | pyword/pyword/ui/panels/document_map_panel.py:122-172 | the loop appends the found headings in turn and yields exactly the collected headings |
| DocumentMap.HashWins | pyword/pyword/ui/panels/document_map_panel.py:122-172 | a # line with nothing after its marks is dropped even when it is in capitals |
| DocumentMap.CapsLineIsTopLevel | pyword/pyword/ui/panels/document_map_panel.py:122-172 | an all-capitals line of the right length without # is a level-1 heading with the whole stripped line |
| DocumentMap.EmptyTextHasNoHeadings | pyword/pyword/ui/panels/document_map_panel.py:122-172 | example: empty text has no headings |
| CrossReferences.CrossRefToDict | pyword/features/cross_references.py:30-41 | the dictionary has exactly the keys id, target_type, target_id, reference_type, position and created |
| CrossReferences.CrossRefFromDict | pyword/features/cross_references.py:42-53 | the reference is missing exactly when target_type, target_id or id is absent; the reference type defaults to "number" and the creation time to the current time |
| CrossReferences.CrossRefRoundTrip | pyword/features/cross_references.py:30-53 | reading a saved cross-reference gives it back |
| CrossReferences.BookmarkToDict | pyword/features/cross_references.py:66-76 | the dictionary has exactly the keys id, name, position, length and created |
| CrossReferences.BookmarkFromDict | pyword/features/cross_references.py:77-87 | the bookmark is missing exactly when name or id is absent; position and length default to 0 and the creation time to the current time |
| CrossReferences.BookmarkRoundTrip | pyword/features/cross_references.py:66-87 | reading a saved bookmark gives it back |
| CrossReferences.PageOf | pyword/features/cross_references.py:220-310 | the page estimate p is the one whose 3000-character span holds the position |
| CrossReferences.SelectionEnds | pyword/features/cross_references.py:227-230 | the cursor starts at 0; each setPosition moves it to a position inside the text and leaves it where it was for one outside, so an ignored end leaves the selection empty |
| CrossReferences.QtSelected | pyword/features/cross_references.py:227-231 | the selected text has the plain text's characters, each paragraph break read as U+2029, and no newline |
| CrossReferences.SelectedText | pyword/features/cross_references.py:227-231 | within the text, the characters between the bookmark's two ends with paragraph breaks as U+2029; an end outside the text gives the empty text, and a start outside it selects from 0 to the end |
| CrossReferences.SelectedTextExamples | pyword/features/cross_references.py:227-231 | example: on "abc" the spans (1, 5) and (2, -5) select nothing, (10, -8) and (2, -2) select "ab", and a paragraph break reads as U+2029 |
| CrossReferences.ResolvedNotBracketed | pyword/features/cross_references.py:329-356 | no reference text counts both as updated and as broken |
| CrossReferences.CrossReferencesManager.constructor | pyword/features/cross_references.py:93-105 | the manager starts with no references, no bookmarks and no linked managers |
| CrossReferences.CrossReferencesManager.SetManagers | pyword/features/cross_references.py:107-111 | the linked managers are replaced and the references and bookmarks are kept |
| CrossReferences.CrossReferencesManager.BookmarkById | pyword/features/cross_references.py:152-157 | the first bookmark with the id, and none exactly when no bookmark has it |
| CrossReferences.CrossReferencesManager.BookmarkByName | pyword/features/cross_references.py:159-164 | the first bookmark with the name, and none exactly when no bookmark has it |
| CrossReferences.CrossReferencesManager.AddBookmark | pyword/features/cross_references.py:113-132 | a taken name is refused with nothing changed; otherwise the new bookmark is appended and names stay unique |
| CrossReferences.CrossReferencesManager.DeleteBookmark | pyword/features/cross_references.py:134-150 | succeeds exactly for a known id, dropping that bookmark and every cross-reference to it; otherwise nothing changes |
| CrossReferences.CrossReferencesManager.DeleteCrossReference | pyword/features/cross_references.py:358-369 | succeeds exactly for a known id, dropping the first reference with it; otherwise nothing changes |
| CrossReferences.CrossReferencesManager.InsertCrossReference | pyword/features/cross_references.py:197-218 | the new reference is always appended, and it is returned exactly when its text is non-empty; a bookmark's text is what Qt selects, so an end outside the document gives no text |
| CrossReferences.CrossReferencesManager.BrokenAmong | pyword/features/cross_references.py:346-356 | a reference is listed exactly when its text is bracketed |
| CrossReferences.CrossReferencesManager.ResolvedCount | pyword/features/cross_references.py:329-344 | the count of updated references never exceeds the number of references |
| CrossReferences.CrossReferencesManager.BrokenPlusResolved | pyword/features/cross_references.py:329-356 | broken and updated references together never exceed the number of references |
| CrossReferences.CrossReferencesManager.FindBrokenReferences | pyword/features/cross_references.py:346-356 | the loop returns the references whose text is bracketed, in order |
| CrossReferences.CrossReferencesManager.UpdateCrossReferences | pyword/features/cross_references.py:329-344 | the loop counts the references whose text resolves, bookmark text read as Qt selects it |
| CrossReferences.CrossReferencesManager.MissingAmong | pyword/features/cross_references.py:346-356 | a reference is listed exactly when its target does not exist |
| CrossReferences.CrossReferencesManager.FindMissingTargets | pyword/features/cross_references.py:346-356 | the loop returns the references whose target does not exist, as the method's documentation intends |
| CrossReferences.CrossReferencesManager.MissingIsBracketed | pyword/features/cross_references.py:220-356 | a reference whose target is missing always reads as bracketed |
| CrossReferences.CrossReferencesManager.HeadingNeverResolves | pyword/features/cross_references.py:220-310 | a heading reference always reads as a bracketed placeholder and its target never counts as existing |
| CrossReferences.BracketedNameFlagged | pyword/features/cross_references.py:346-356 | a reference to an existing bookmark named "[Draft]" is still reported as broken |
| Citations.NewCitation | pyword/features/citations.py:23-55 | a new citation has the given id and type, every text field empty and a use count of 0 |
| Citations.CitationToDict | pyword/features/citations.py:57-83 | serialising fails exactly when the creation time is a string rather than a datetime; otherwise the dictionary has every field |
| Citations.CitationFromDict | pyword/features/citations.py:84-108 | reading fails exactly without an id; the creation time read back is always a datetime, and missing fields take their defaults |
| Citations.CitationRoundTrip | pyword/features/citations.py:57-108 | a citation with a datetime creation time serialises and reads back unchanged |
| Citations.EditedAsWritten | pyword/features/citations.py:140-149 | the edit as written keeps the id but stores the creation time as its ISO string |
| Citations.EditedAsWrittenCannotSerialise | pyword/features/citations.py:57-83 | after an edit as written the citation can no longer be serialised |
| Citations.Edited | pyword/features/citations.py:140-149 | the intended edit takes every attribute but the id from the update and keeps a datetime creation time |
| Citations.EditedSerialises | pyword/features/citations.py:57-108 | after the intended edit the citation still serialises and reads back unchanged |
| Citations.AuthorPartSpec | pyword/features/citations.py:221-241 | the author part is the author up to its first comma, or "Unknown" for an empty author |
| Citations.IeeeInline | pyword/features/citations.py:243-251 | the number is the one-based place of the first equal entry of the sorted library, or "?" for a citation not in it |
| Citations.CiteKey | pyword/features/citations.py:509-516 | the BibTeX key has no spaces |
| Citations.CiteKeyParts | pyword/features/citations.py:509-516 | the key is the author part before the first comma followed by the year, with exactly the spaces removed |
| Citations.PartsNonEmpty | pyword/features/citations.py:338-464 | no bibliography style emits an empty part |
| Citations.ApaShape | pyword/features/citations.py:338-371 | an APA entry starts with "author." when there is an author, italicises a book's title and ends with the DOI link when there is a DOI |
| Citations.IeeeParts | pyword/features/citations.py:440-464 | the bracketed number is always the first part of an IEEE entry |
| Citations.IeeeStartsWithNumber | pyword/features/citations.py:440-464 | an IEEE entry starts with its bracketed number |
| Citations.BibliographyTitle | pyword/features/citations.py:280-288 | MLA titles the bibliography "Works Cited", Chicago "Bibliography" and every other style "References" |
| Citations.Entries | pyword/features/citations.py:293-297 | there is one entry per citation |
| Citations.EntriesAt | pyword/features/citations.py:293-297 | entry j formats citation j with number j + 1 |
| Citations.FormatEntries | pyword/features/citations.py:293-297 | the loop returns one formatted entry per sorted citation, numbered from 1 |
| Citations.Insert | pyword/features/citations.py:306-321 | inserting adds exactly the one citation |
| Citations.Sort | pyword/features/citations.py:306-321 | the sort is a permutation of its input |
| Citations.SortSorted | pyword/features/citations.py:306-321 | the sorted list is ordered by the key |
| Citations.SortStable | pyword/features/citations.py:306-321 | citations sharing a key keep their relative order, as Python's sort guarantees |
| Citations.UsedIds | pyword/features/citations.py:301-304 | an id is used exactly when some reference names it |
| Citations.CitationsManager.constructor | pyword/features/citations.py:124-133 | the manager starts empty, in APA style, sorting bibliographies by author with hanging indents |
| Citations.CitationsManager.CitationById | pyword/features/citations.py:161-166 | the first citation with the id, and none exactly when no citation has it |
| Citations.CitationsManager.AddCitation | pyword/features/citations.py:135-138 | the citation is appended and returned |
| Citations.CitationsManager.EditCitation | pyword/features/citations.py:140-149 | false exactly for an unknown id; an update whose creation time is already a string raises with nothing changed; otherwise the first citation with the id takes the as-written edit, its creation time becoming the ISO string |
| Citations.CitationsManager.DeleteCitation | pyword/features/citations.py:151-159 | succeeds exactly for a known id, dropping the first citation with it and every reference to it; otherwise nothing changes |
| Citations.CitationsManager.InsertCitation | pyword/features/citations.py:168-204 | an unknown id changes nothing; a known one appends a reference on page 1, raises that citation's use count by one and inserts its inline text |
| Citations.CitationsManager.SortedCitationsSpec | pyword/features/citations.py:306-321 | the list is a permutation, ordered by the key when sorting is on and the key known, and unchanged otherwise |
| Citations.CitationsManager.UsedCitations | pyword/features/citations.py:301-304 | a citation is used exactly when it is in the library and some reference names its id |
| Citations.CitationsManager.InlineForms | pyword/features/citations.py:206-241 | the inline text each style gives for a citation |
| Citations.CitationsManager.IeeeNumbering | pyword/features/citations.py:243-251 | the IEEE number is the citation's one-based place in the sorted library, and "?" for a citation not in it |
| Citations.CitationsManager.InsertBibliography | pyword/features/citations.py:253-299 | nothing is inserted exactly when no citation is used; otherwise the style's title and one entry per used citation in sorted order |
| Comments.MentionsOf | pyword/features/comments.py:116-117 | there are never more mentions than words |
| Comments.MentionsOfMembers | pyword/features/comments.py:116-117 | a name is a mention exactly when the word "@name" occurs |
| Comments.MentionsSpec | pyword/features/comments.py:116-117 | a user is mentioned exactly when the text holds the token "@user", and a mention never holds whitespace |
| Comments.ToDict | pyword/features/comments.py:38-56 | the dictionary has every field; the parent id and edit time are null exactly when unset |
| Comments.EditStampFrom | pyword/features/comments.py:57-75 | only a non-empty edit time is read back |
| Comments.FromDict | pyword/features/comments.py:57-75 | reading fails exactly when a required key is missing; the flags default to false and the lists to empty |
| Comments.RoundTrip | pyword/features/comments.py:38-75 | reading a saved comment gives every field back |
| Comments.Lookup | pyword/features/comments.py:203-208 | the first comment with the id, and none exactly when no comment has it |
| Comments.PosAt | pyword/features/comments.py:203-208 | with distinct ids, the lookup of a comment's id finds that comment |
| Comments.DeleteRemovesThread | pyword/features/comments.py:156-178 | deleting a comment removes exactly the comments on its thread and unlinks it from its parent |
| Comments.SubtreeIsThread | pyword/features/comments.py:156-178 | what deleting a comment removes is exactly the set of comments its thread lists |
| Comments.CommentsByAuthor | pyword/features/comments.py:210-212 | a comment is listed exactly when it has the author |
| Comments.ActiveComments | pyword/features/comments.py:214-216 | a comment is listed exactly when it is unresolved and top-level |
| Comments.ResolvedComments | pyword/features/comments.py:218-220 | a comment is listed exactly when it is resolved and top-level |
| Comments.RootComments | pyword/features/comments.py:222-224 | a comment is listed exactly when it has no parent id |
| Comments.ActiveResolvedPartition | pyword/features/comments.py:214-224 | the top-level comments split, in order, into the active and the resolved ones |
| Comments.Mentioning | pyword/features/comments.py:249-251 | a comment is listed exactly when its mentions name the user |
| Comments.CommentsByTag | pyword/features/comments.py:269-271 | a comment is listed exactly when it carries the tag |
| Comments.RepliesAreChildren | pyword/features/comments.py:226-231 | an unknown id has no replies; in a linked list every listed reply is found, in order, and names the comment as parent |
| Comments.NavigateTarget | pyword/features/comments.py:273-282 | the cursor moves exactly when the comment exists, to that comment's start |
| Comments.RepliesAfter | pyword/features/comments.py:103-140 | a listed reply sits after the comment that lists it |
| Comments.Thread | pyword/features/comments.py:233-247 | an unknown id has an empty thread; otherwise the thread starts with the comment itself |
| Comments.ThreadClosed | pyword/features/comments.py:233-247 | a thread holds every present reply of each comment on it |
| Comments.ThreadWithin | pyword/features/comments.py:233-247 | a reply-closed set holding a comment holds its whole thread |
| Comments.NewComment | pyword/features/comments.py:103-127 | a new comment has no replies or tags, is unresolved and unedited, and mentions exactly the "@" words of its text |
| Comments.AddLinked | pyword/features/comments.py:103-140 | adding a comment with a fresh id and linking it into its parent keeps the comment list linked |
| Comments.LinkedKeep | pyword/features/comments.py:142-154 | changing a comment's text, flags or tags keeps the list linked |
| Comments.Span | pyword/features/comments.py:107-114 | the span given is used; else the selection, ordered; else the empty span at the cursor |
| Comments.CommentsManager.constructor | pyword/features/comments.py:88-97 | the manager starts with no comments, as "Unknown User", showing comments |
| Comments.CommentsManager.SetAuthor | pyword/features/comments.py:99-101 | the author is replaced and nothing else changes |
| Comments.CommentsManager.RemoveLeaf | pyword/features/comments.py:170-177 | a comment with no replies left is unlinked from its parent's reply list and removed, keeping the list linked |
| Comments.CommentsManager.DeleteReplies | pyword/features/comments.py:162-164 | each reply of the comment is deleted in turn, with its subtree, keeping the list linked |
| Comments.CommentsManager.DeleteComment | pyword/features/comments.py:156-178 | an unknown id changes nothing; otherwise the comment's thread is removed and it is unlinked from its parent, keeping the list linked |
| Comments.CommentsManager.AddComment | pyword/features/comments.py:103-140 | the new comment goes at the end and is appended to its parent's reply list; nothing else changes and the list stays linked |
| Comments.CommentsManager.EditComment | pyword/features/comments.py:142-154 | a known comment gets the new text, the edited mark, the edit time and the new text's mentions; an unknown id changes nothing |
| Comments.CommentsManager.ResolveComment | pyword/features/comments.py:180-193 | the comment and each of its direct replies are marked resolved, and nothing else changes; an unknown id changes nothing |
| Comments.CommentsManager.UnresolveComment | pyword/features/comments.py:195-201 | only that comment's mark is cleared; an unknown id changes nothing |
| Comments.CommentsManager.GetCommentById | pyword/features/comments.py:203-208 | the scan finds the first comment with the id |
| Comments.CommentsManager.AddTag | pyword/features/comments.py:253-259 | a tag the comment lacks is appended; an unknown id or a present tag changes nothing |
| Comments.CommentsManager.RemoveTag | pyword/features/comments.py:261-267 | a tag the comment carries is removed and is then absent; an unknown id or an absent tag changes nothing |
| Comments.CommentsManager.ToggleShowComments | pyword/features/comments.py:284-297 | the display flag flips and nothing else changes |
| Comments.CommentsManager.GetCommentThread | pyword/features/comments.py:233-247 | the loop returns the comment's thread |
| TrackChanges.NewChange | pyword/features/track_changes.py:29-37 | a new change is pending, carries the given fields and an id made of its type, position and time |
| TrackChanges.ChangeToDict | pyword/features/track_changes.py:39-52 | the dictionary has exactly the keys change_type, position, content, author, timestamp, accepted, rejected and id |
| TrackChanges.ChangeFromDict | pyword/features/track_changes.py:53-65 | reading succeeds exactly when the five constructor keys are present; the flags default to false |
| TrackChanges.ChangeRoundTrip | pyword/features/track_changes.py:39-65 | reading a saved change gives back every field, the id included |
| TrackChanges.SetPosition | pyword/features/track_changes.py:191-192 | the copy of the editor cursor collapses onto an in-range position; an out-of-range position is refused and the copy keeps the editor cursor |
| TrackChanges.MoveRight | pyword/features/track_changes.py:193-197 | moving right with the anchor kept advances the position by the count, stopping at the end of the text |
| TrackChanges.RemoveSelected | pyword/features/track_changes.py:198 | removing the selection drops exactly the characters between anchor and position |
| TrackChanges.InsertText | pyword/features/track_changes.py:225 | inserting replaces the selection, if any, by the text and keeps the rest |
| TrackChanges.RemoveRange | pyword/features/track_changes.py:191-198 | inside the text, n characters at the position are removed, or up to the end; outside it, the edit happens at the editor cursor |
| TrackChanges.InsertAt | pyword/features/track_changes.py:223-225 | inside the text, the content goes in at the position; outside it, it replaces the editor cursor's selection |
| TrackChanges.OutOfRangeEditsAtCursor | pyword/features/track_changes.py:191-198 | a position past the end edits at the editor cursor, not at the end of the text |
| TrackChanges.AcceptedText | pyword/features/track_changes.py:189-210 | accepting a deletion removes the content's length at the position; accepting any other change keeps the text |
| TrackChanges.RejectedText | pyword/features/track_changes.py:221-235 | rejecting a deletion puts the content back at the position; rejecting an insertion removes the content's length there; other changes keep the text |
| TrackChanges.RejectInsertionUndoes | pyword/features/track_changes.py:226-235 | rejecting an insertion recorded at the start of its still-present text gives back the text before it |
| TrackChanges.RejectRecordedInsertionAsWritten | pyword/features/track_changes.py:146-151 | as written, the recorded position is the cursor after the typed character, so rejecting removes the character after it and keeps the typed one |
| TrackChanges.RejectRecordedInsertionExample | pyword/features/track_changes.py:146-151 | typing "x" at the start of "ab" and rejecting the insertion gives "xb" |
| TrackChanges.InsertionStart | pyword/features/track_changes.py:146-151 | the corrected recorded position plus the content's length is the cursor position |
| TrackChanges.RejectCorrectedInsertionUndoes | pyword/features/track_changes.py:146-151 | with the corrected position, rejecting a typed character gives back the text before typing |
| TrackChanges.RejectDeletionRestores | pyword/features/track_changes.py:221-235 | rejecting a deletion restores the text as it was before the deletion |
| TrackChanges.AcceptTwiceRemovesTwice | pyword/features/track_changes.py:183-213 | accepting a deletion twice removes its length twice, as no flag is checked first |
| TrackChanges.MarkAccepted | pyword/features/track_changes.py:240-244 | a pending change becomes accepted, a decided one keeps its flags, and neither is pending afterwards |
| TrackChanges.MarkRejected | pyword/features/track_changes.py:246-250 | a pending change becomes rejected, a decided one keeps its flags, and neither is pending afterwards |
| TrackChanges.PendingChanges | pyword/features/track_changes.py:256-258 | a change is listed exactly when it is pending |
| TrackChanges.ChangesByAuthor | pyword/features/track_changes.py:252-254 | a change is listed exactly when it has the author |
| TrackChanges.FlagsNotExclusive | pyword/features/track_changes.py:183-238 | example: accepting and then rejecting a change leaves both flags set |
| TrackChanges.Recorded | pyword/features/track_changes.py:131-181 | at most one pending record by the author, carrying the reported position and text: a deletion for a selection, an insertion for a non-empty typed text, nothing exactly when neither |
| TrackChanges.Mark | pyword/features/track_changes.py:240-250 | a decided change is no longer pending, and a pending one carries exactly the decision's flag |
| TrackChanges.QuietDecisionKeepsText | pyword/features/track_changes.py:183-238 | accepting or rejecting a change that does not make the editor emit textChanged leaves the text as it was |
| TrackChanges.Step | pyword/features/track_changes.py:240-250 | one turn of the all-changes loop: the change at the index is decided or, when already decided, nothing changes; the other changes stay; at most one pending record by the author is appended, and only when a report is used up |
| TrackChanges.SettleAllFacts | pyword/features/track_changes.py:240-250 | the loop over the live list ends with no change pending, each change it started from decided in place, and at most one appended record per report |
| TrackChanges.SettleAllRecords | pyword/features/track_changes.py:240-250 | every record the loop appends is by the current author and carries the loop's decision |
| TrackChanges.SettleAllUntracked | pyword/features/track_changes.py:240-250 | without tracking nothing is appended and the text is that of deciding the list in order |
| TrackChanges.SettleAllFromStart | pyword/features/track_changes.py:240-250 | over a whole run: the starting changes decided in place, each appended record decided and by the current author, none pending, and without tracking the list's length and the in-order text |
| TrackChanges.TrackChangesManager.constructor | pyword/features/track_changes.py:71-88 | tracking starts off, with no changes, as "Unknown User", showing changes |
| TrackChanges.TrackChangesManager.EnableTracking | pyword/features/track_changes.py:90-102 | tracking is on; a given name becomes the author, else an unset author is replaced by the prompt's answer or "Unknown User" |
| TrackChanges.TrackChangesManager.DisableTracking | pyword/features/track_changes.py:104-113 | tracking is off and nothing else changes |
| TrackChanges.TrackChangesManager.ToggleTracking | pyword/features/track_changes.py:115-120 | the tracking flag flips; switching on without an author takes the prompt's answer |
| TrackChanges.TrackChangesManager.OnTextChanged | pyword/features/track_changes.py:131-181 | while tracking, exactly the reported record by the current author is appended; nothing while tracking is off |
| TrackChanges.TrackChangesManager.DecideAt | pyword/features/track_changes.py:240-250 | the change at the index is decided when it is pending, and the new text, list and remaining reports are one turn of the loop |
| TrackChanges.TrackChangesManager.ToggleShowChanges | pyword/features/track_changes.py:260-267 | the display flag flips and nothing else changes |
| TrackChanges.TrackChangesManager.AcceptChange | pyword/features/track_changes.py:183-213 | succeeds exactly for a held change: its accepted flag is set, the text edited, and, when the edit fires textChanged while tracking, the reported record appended; otherwise nothing changes |
| TrackChanges.TrackChangesManager.RejectChange | pyword/features/track_changes.py:215-238 | succeeds exactly for a held change: its rejected flag is set, the text edited, and, when the edit fires textChanged while tracking, the reported record appended; otherwise nothing changes |
| TrackChanges.TrackChangesManager.AcceptAllChanges | pyword/features/track_changes.py:240-244 | the result is the loop over the live list: the starting changes accepted in place, at most one appended record per report, each accepted and by the current author, none pending; without tracking, the length kept and the text as accepting the list in order |
| TrackChanges.TrackChangesManager.RejectAllChanges | pyword/features/track_changes.py:246-250 | the result is the loop over the live list: the starting changes rejected in place, at most one appended record per report, each rejected and by the current author, none pending; without tracking, the length kept and the text as rejecting the list in order |
| TrackChanges.NoneLeftPending | pyword/features/track_changes.py:256-258 | a list with no pending change has an empty pending list |
| TrackChanges.PendingSplit | pyword/features/track_changes.py:256-258 | the pending and the decided changes together make up the list |
| Review.MarkupFor | pyword/pyword/features/review.py:40-57 | Edit and Review modes show markup, Final hides it, and any other mode sets nothing |
| Review.ReviewManager.constructor | pyword/pyword/features/review.py:28-38 | the manager starts in Edit mode as "Reviewer", showing markup and comments, not tracking, with no managers attached |
| Review.ReviewManager.Attach | pyword/pyword/features/review.py:28-38 | the managers are attached and the review settings are kept |
| Review.ReviewManager.ApplyModeSettings | pyword/pyword/features/review.py:59-65 | each attached manager takes the markup or comments flag |
| Review.ReviewManager.SetMode | pyword/pyword/features/review.py:40-57 | the mode is stored; Edit and Review show markup and comments, Final hides both, any other mode keeps the flags; the attached managers follow |
| Review.ReviewManager.EnableTrackChanges | pyword/pyword/features/review.py:67-71 | with a manager attached, tracking starts under the reviewer's name; without one nothing changes |
| Review.ReviewManager.DisableTrackChanges | pyword/pyword/features/review.py:73-77 | with a manager attached, tracking stops; without one nothing changes |
| Review.ReviewManager.ToggleTrackChanges | pyword/pyword/features/review.py:79-84 | the tracking flag flips when a manager is attached and nothing changes otherwise |
| Review.ReviewManager.AcceptAllChanges | pyword/pyword/features/review.py:86-90 | False without a manager; otherwise None, with the manager's state that of its accept_all_changes over the live list: the starting changes accepted in place, none pending, at most one appended record per report, and the flags and author kept |
| Review.ReviewManager.RejectAllChanges | pyword/pyword/features/review.py:92-96 | False without a manager; otherwise None, with the manager's state that of its reject_all_changes over the live list: the starting changes rejected in place, none pending, at most one appended record per report, and the flags and author kept |
| Review.ReviewManager.GetReviewSummary | pyword/pyword/features/review.py:98-116 | the counts are zero for a missing manager, else the numbers of pending changes and active and resolved comments; active and resolved comments together are the top-level ones |
| MailMerge.Get | pyword/pyword/features/mail_merge.py:90-95 | a missing field reads as the default, and a present one as its value |
| MailMerge.ExtendNamesSpec | pyword/pyword/features/mail_merge.py:75-82 | the old field names stay first and in order, the result holds exactly the old names and the record's keys, and no new name repeats |
| MailMerge.Marker | pyword/pyword/features/mail_merge.py:221-235 | a field marker is the field name between the two delimiters |
| MailMerge.ReplaceFieldsNoMarkers | pyword/pyword/features/mail_merge.py:261-279 | a text without an opening delimiter is left unchanged by the merge |
| MailMerge.ReplaceFieldsRenders | pyword/pyword/features/mail_merge.py:261-279 | on a clean template with clean values, the replacement loop turns each marker of a known field into the record's value and leaves everything else |
| MailMerge.CloseAt | pyword/pyword/features/mail_merge.py:343-353 | the pattern's match ends at the first closing delimiter, with no newline before it |
| MailMerge.MarkerNamesTemplate | pyword/pyword/features/mail_merge.py:343-353 | on a clean template the pattern finds exactly the template's markers, in order |
| MailMerge.MergeLeavesUnknownMarkers | pyword/pyword/features/mail_merge.py:261-279 | after the merge the pattern finds exactly the markers whose field the source lacks, in document order |
| MailMerge.ValidateFields | pyword/pyword/features/mail_merge.py:355-371 | the invalid fields are exactly the found ones the source lacks, and validation passes exactly when there are none |
| MailMerge.ValidationMeansComplete | pyword/pyword/features/mail_merge.py:355-371 | on a clean template validation passes exactly when merging leaves no marker behind |
| MailMerge.AsRecordValue | pyword/pyword/features/mail_merge.py:97-119 | a stored record reads back as itself |
| MailMerge.AsRecordsValue | pyword/pyword/features/mail_merge.py:97-119 | a stored record list reads back as itself |
| MailMerge.SourceToDict | pyword/pyword/features/mail_merge.py:97-109 | the dictionary has exactly the keys id, name, source_type, file_path, records, field_names and created |
| MailMerge.SourceFromDict | pyword/pyword/features/mail_merge.py:110-119 | reading succeeds exactly when name and id are present; the type defaults to csv, the path to None, the lists to empty and the time to now |
| MailMerge.SourceRoundTrip | pyword/pyword/features/mail_merge.py:97-119 | reading a saved data source restores every attribute |
| MailMerge.PyStr | pyword/pyword/features/mail_merge.py:277 | str of a stored scalar: a string as itself, and an integer, boolean or null as non-empty text; no text for floats, lists and dicts |
| MailMerge.AsRecord | pyword/pyword/features/mail_merge.py:272-277 | at most one field per stored entry, and one for every entry when all values are strings |
| MailMerge.AsRecordScalars | pyword/pyword/features/mail_merge.py:272-277 | example: an integer, a boolean and a null merge as -3, True and None |
| MailMerge.AsRecords | pyword/pyword/features/mail_merge.py:84-88 | one record per stored item, so indexes are kept: a dict reads as its entries, any other item as the empty record |
| MailMerge.MergeFieldToDict | pyword/pyword/features/mail_merge.py:131-140 | the dictionary has exactly the keys id, field_name, position and format_string |
| MailMerge.MergeFieldFromDict | pyword/pyword/features/mail_merge.py:141-149 | reading succeeds exactly when field_name and id are present; the position defaults to 0 and the format to None |
| MailMerge.MergeFieldRoundTrip | pyword/pyword/features/mail_merge.py:131-149 | reading a saved merge field gives it back |
| MailMerge.DataSource.constructor | pyword/pyword/features/mail_merge.py:26-33 | a new data source has the given id, name and type, no path, no records and no field names |
| MailMerge.DataSource.AddManualRecord | pyword/pyword/features/mail_merge.py:75-82 | the record is appended, and its new keys join the field names in key order |
| MailMerge.DataSource.GetRecord | pyword/pyword/features/mail_merge.py:84-88 | the record at an in-range index, and None exactly for an index out of range |
| MailMerge.DataSource.GetFieldValue | pyword/pyword/features/mail_merge.py:90-95 | the empty string for a missing record or field, otherwise the field's value |
| MailMerge.DataSource.ToDict | pyword/pyword/features/mail_merge.py:97-119 | the dictionary reads back as the source's own state |
| MailMerge.DataSource.FromDict | pyword/pyword/features/mail_merge.py:110-119 | no source exactly when reading fails; otherwise a new source holding what was read |
| MailMerge.IndexOf | pyword/pyword/features/mail_merge.py:172-185 | the first position of the id |
| MailMerge.MergedPathInjective | pyword/pyword/features/mail_merge.py:327-341 | documents with different numbers go to different paths |
| MailMerge.SavedPaths | pyword/pyword/features/mail_merge.py:327-341 | every path reported belongs to a document whose write succeeded |
| MailMerge.SavedPathsDistinct | pyword/pyword/features/mail_merge.py:327-341 | no file is reported twice |
| MailMerge.SavedPathsComplete | pyword/pyword/features/mail_merge.py:327-341 | every successful write is reported, under its own number |
| MailMerge.MailMergeManager.constructor | pyword/pyword/features/mail_merge.py:155-163 | the manager starts with no sources, no active source, no fields and the preview at record 0 |
| MailMerge.MailMergeManager.AddDataSource | pyword/pyword/features/mail_merge.py:165-170 | the source is appended and becomes active only when none is |
| MailMerge.MailMergeManager.SetActiveDataSource | pyword/pyword/features/mail_merge.py:172-178 | succeeds exactly for a known id, whose first source becomes active; otherwise nothing changes |
| MailMerge.MailMergeManager.GetDataSourceById | pyword/pyword/features/mail_merge.py:180-185 | the first source with the id, and null exactly when none has it |
| MailMerge.MailMergeManager.InsertMergeField | pyword/pyword/features/mail_merge.py:187-235 | refused without an active source or for a field it lacks; otherwise the field is recorded and its marker inserted at the position, or at the start for a position outside the text |
| MailMerge.MailMergeManager.PreviewMerge | pyword/pyword/features/mail_merge.py:237-259 | false without an active source; otherwise true exactly when the index, by default the preview index, is below the record count |
| MailMerge.MailMergeManager.MergedText | pyword/pyword/features/mail_merge.py:261-279 | the text is unchanged without an active source, for a missing record and for an empty record |
| MailMerge.MailMergeManager.ReplaceMergeFields | pyword/pyword/features/mail_merge.py:261-279 | the loop over the field names computes the merged text |
| MailMerge.MailMergeManager.CompleteMerge | pyword/pyword/features/mail_merge.py:281-325 | no documents without an active source; otherwise one merged text per record, in record order |
| MailMerge.MailMergeManager.MergeFieldsInDocument | pyword/pyword/features/mail_merge.py:343-353 | a name is found exactly when the pattern finds its marker in the document |
| MailMerge.MailMergeManager.ValidateMergeFields | pyword/pyword/features/mail_merge.py:355-371 | without an active source the answer is false with the one message; otherwise the document's fields the source lacks |
| MailMerge.MailMergeManager.SaveMergedDocuments | pyword/pyword/features/mail_merge.py:327-341 | exactly the numbered paths of the successful writes are reported |
| Security.ProtectionFromValue | pyword/pyword/features/security.py:28-35 | a protection type read from a value gives that value back |
| Security.ProtectionValueRoundTrip | pyword/pyword/features/security.py:28-35 | every protection type reads back from its value |
| Security.PermissionFromValue | pyword/pyword/features/security.py:38-45 | a permission level read from a value gives that value back |
| Security.PermissionValueRoundTrip | pyword/pyword/features/security.py:38-45 | every permission level reads back from its value |
| Security.HexValue | pyword/pyword/features/security.py:350-372 | a hex digit has a value below 16 |
| Security.HexDigitValue | pyword/pyword/features/security.py:350-372 | every digit value reads back from its hex digit |
| Security.Hex | pyword/pyword/features/security.py:330-348 | a byte string's hex text has two digits per byte |
| Security.FromHex | pyword/pyword/features/security.py:350-372 | ASCII whitespace before a digit pair is skipped and each pair gives one byte: twice the bytes plus the whitespace is the length of the text; a lone digit or a non-hex character fails |
| Security.FromHexWhitespace | pyword/pyword/features/security.py:354-360 | example: "00 11" reads as two bytes and " 0a\n" as one, while "0 0" fails |
| Security.HexRoundTrip | pyword/pyword/features/security.py:330-372 | the hex text of a byte string reads back as it |
| Security.HashPasswordInjective | pyword/pyword/features/security.py:238-240 | under one salt, different passwords have different hashes |
| Security.VerifyHash | pyword/pyword/features/security.py:242-246 | a missing salt raises; otherwise the password verifies exactly when its hash matches |
| Security.VerifyOwnHash | pyword/pyword/features/security.py:238-246 | a password verifies against its own hash and salt, and no other password does |
| Security.NewSignature | pyword/pyword/features/security.py:51-65 | a new signature takes a fresh certificate id when none is given and the current time when none is given, is valid, and carries the hash of its signer, certificate and time |
| Security.SignatureToDict | pyword/pyword/features/security.py:67-80 | the dictionary has exactly the keys id, signer_name, certificate_id, timestamp, reason, location, signature_data and is_valid |
| Security.SignatureFromDict | pyword/pyword/features/security.py:81-93 | reading succeeds exactly when signer, certificate, time, id and data are present; validity defaults to true and the texts to empty |
| Security.SignatureRoundTrip | pyword/pyword/features/security.py:67-93 | a signature with a certificate id reads back unchanged |
| Security.VerifySignature | pyword/pyword/features/security.py:259-268 | an unknown id never verifies; a signature id verifies exactly when the FIRST signature with that id has stored data equal to its recomputed hash |
| Security.NewSignatureVerifies | pyword/pyword/features/security.py:259-268 | a signature the constructor makes verifies |
| Security.HasPermission | pyword/pyword/features/security.py:107-111 | nothing after the expiry date; before it, the permission itself or full control must be listed |
| Security.FullControlImpliesAll | pyword/pyword/features/security.py:107-111 | full control grants every permission exactly while it grants full control |
| Security.PermissionsRoundTrip | pyword/pyword/features/security.py:113-136 | a permission list reads back as itself |
| Security.UserPermissionToDict | pyword/pyword/features/security.py:113-124 | the dictionary has exactly the keys user_id, user_name, permissions, expiry_date, granted_by and granted_date |
| Security.UserPermissionFromDict | pyword/pyword/features/security.py:125-136 | reading needs the user id and name, the permissions and the grant date; a missing expiry or grantor reads as none |
| Security.UserPermissionRoundTrip | pyword/pyword/features/security.py:113-136 | a user permission with a real expiry date, if any, reads back unchanged |
| Security.WithoutUser | pyword/pyword/features/security.py:295-312 | an entry is kept exactly when it is for another user |
| Security.UserPermissionOf | pyword/pyword/features/security.py:314-329 | the first entry for the user, and none exactly when the user has none |
| Security.SaltFrom | pyword/pyword/features/security.py:350-372 | no stored salt, or an empty one, reads as none; a stored salt reads as fromhex reads it, whitespace between digit pairs included, and fails exactly where fromhex raises |
| Security.SignaturesRoundTrip | pyword/pyword/features/security.py:330-372 | a signature list reads back as itself |
| Security.UserPermissionsRoundTrip | pyword/pyword/features/security.py:330-372 | a permission list reads back as itself |
| Security.StateFromDict | pyword/pyword/features/security.py:350-372 | missing keys take the constructor's defaults, among them no protection, no signatures, no permissions and AES-256 |
| Security.StateRoundTrip | pyword/pyword/features/security.py:330-372 | reading a saved state restores every setting |
| Security.SecurityManager.constructor | pyword/pyword/features/security.py:142-168 | the manager starts unprotected, with no password, signatures or permissions, IRM off and AES-256 |
| Security.SecurityManager.ProtectDocument | pyword/pyword/features/security.py:169-178 | the type is always set; a non-empty password stores a new salt and its hash, and otherwise an earlier hash stays |
| Security.SecurityManager.UnprotectDocument | pyword/pyword/features/security.py:180-193 | with a hash set, a missing or wrong password fails and changes nothing; otherwise the protection is cleared |
| Security.SecurityManager.SetPassword | pyword/pyword/features/security.py:210-219 | the empty password is refused; otherwise a new salt, its hash and the hint are stored and the document is protected |
| Security.SecurityManager.VerifyPassword | pyword/pyword/features/security.py:221-225 | always true for an unprotected document; otherwise the password's hash is checked |
| Security.SecurityManager.RemovePassword | pyword/pyword/features/security.py:227-236 | only a password that verifies removes the protection, clearing hash, salt and hint; otherwise nothing changes |
| Security.SecurityManager.AddSignature | pyword/pyword/features/security.py:247-252 | a new signature with a fresh certificate id and the current time goes last |
| Security.SecurityManager.RemoveSignature | pyword/pyword/features/security.py:254-257 | every signature with the id goes, and the answer is always true |
| Security.SecurityManager.InvalidateSignatures | pyword/pyword/features/security.py:274-279 | every signature is marked invalid and nothing else changes |
| Security.SecurityManager.EnableIrm | pyword/pyword/features/security.py:280-287 | IRM is on with the given owner and policy |
| Security.SecurityManager.DisableIrm | pyword/pyword/features/security.py:289-293 | IRM is off and every permission is cleared |
| Security.SecurityManager.GrantPermission | pyword/pyword/features/security.py:295-307 | an earlier entry for the user is dropped and the new one, granted by the IRM owner, goes last |
| Security.SecurityManager.RevokePermission | pyword/pyword/features/security.py:309-312 | every entry for the user goes, and the answer is always true |
| Security.SecurityManager.CheckPermission | pyword/pyword/features/security.py:314-323 | everything is allowed with IRM off; with it on, a user without an entry is refused and otherwise the entry decides |
| Security.SecurityManager.GetUserPermissions | pyword/pyword/features/security.py:325-329 | the user's first entry, if any |
| Security.SecurityManager.ToDict | pyword/pyword/features/security.py:330-348 | a state the manager's operations can produce reads back from its dictionary |
| Security.SecurityManager.FromDict | pyword/pyword/features/security.py:350-372 | succeeds exactly when the dictionary reads, loading what was read; otherwise the state is kept |
| Security.SecurityManager.GetSecurityInfo | pyword/pyword/features/security.py:374-385 | protected exactly when a protection type is set; the counts of signatures, valid signatures and permitted users |
| Security.GrantKeepsOnePerUser | pyword/pyword/features/security.py:295-307 | after a grant the user has exactly the new entry, and each user still has at most one |
| Security.RevokeRemovesUser | pyword/pyword/features/security.py:309-312 | after a revoke the user has no entry |
| Security.SetPasswordThenVerify | pyword/pyword/features/security.py:210-225 | a password set with set_password verifies exactly |
| Automation.MacroTypeFromValue | pyword/features/automation.py:28-32 | a macro type read from a value gives that value back |
| Automation.MacroTypeRoundTrip | pyword/features/automation.py:28-32 | every macro type reads back from its value |
| Automation.ActionTypeFromValue | pyword/features/automation.py:35-48 | an action type read from a value gives that value back |
| Automation.ActionTypeRoundTrip | pyword/features/automation.py:35-48 | every action type reads back from its value |
| Automation.Parameters | pyword/features/automation.py:54-57 | falsy parameters become the empty dictionary and any others are kept |
| Automation.NewAction | pyword/features/automation.py:54-57 | a new action has the type and time given and its parameters as the constructor leaves them |
| Automation.ActionToDict | pyword/features/automation.py:59-67 | the dictionary has exactly the keys action_type, parameters and timestamp |
| Automation.ActionFromDict | pyword/features/automation.py:68-75 | reading needs all three keys, a known action type and a string timestamp |
| Automation.ActionRoundTrip | pyword/features/automation.py:59-75 | an action made by the constructor reads back unchanged |
| Automation.ActionsRoundTrip | pyword/features/automation.py:101-134 | a list of such actions reads back as itself |
| Automation.NewMacro | pyword/features/automation.py:81-94 | a new macro has no actions, has never run, is enabled, runs at no event, and was created and modified now |
| Automation.MacroToDict | pyword/features/automation.py:101-119 | the dictionary holds the id, name, type and both dates |
| Automation.StoredActions | pyword/features/automation.py:120-134 | a macro stored without actions has none |
| Automation.MacroFromDict | pyword/features/automation.py:120-134 | reading needs the name, a known type, the id and both dates; missing actions, run count and flags take their defaults |
| Automation.MacroRoundTrip | pyword/features/automation.py:101-134 | a macro whose actions came from the constructor reads back unchanged |
| Automation.Macro.constructor | pyword/features/automation.py:81-94 | the macro object holds the given attributes |
| Automation.Macro.AddAction | pyword/features/automation.py:96-99 | the action is appended and the modification date stamped; nothing else changes |
| Automation.NewAddIn | pyword/features/automation.py:140-153 | a new add-in is enabled, not loaded, installed now, with no dependencies, permissions or settings |
| Automation.AddInToDict | pyword/features/automation.py:155-173 | the dictionary holds the id, name, version and install date |
| Automation.AddInFromDict | pyword/features/automation.py:174-188 | reading needs the name, version, id and install date; the add-in is enabled and not loaded by default |
| Automation.AddInRoundTrip | pyword/features/automation.py:155-188 | an add-in reads back unchanged |
| Automation.AddIn.constructor | pyword/features/automation.py:140-153 | the add-in object holds the given attributes |
| Automation.AutomationToDict | pyword/features/automation.py:554-560 | the saved dictionary has exactly the parts macros and addins |
| Automation.LoadEach | pyword/features/automation.py:562-569 | a stored dictionary loads exactly when every value is a dictionary that loads, giving the loaded object under each stored key |
| Automation.LoadEachEntries | pyword/features/automation.py:562-569 | a stored dictionary whose every entry loads as the object under its key loads as exactly that map |
| Automation.MacroMapFrom | pyword/features/automation.py:562-569 | the stored macros load exactly when each of them loads, under the same keys |
| Automation.MacrosFrom | pyword/features/automation.py:562-569 | no stored macros means none; anything but a dictionary fails |
| Automation.AddInMapFrom | pyword/features/automation.py:562-569 | the stored add-ins load exactly when each of them loads, under the same keys |
| Automation.AddInsFrom | pyword/features/automation.py:562-569 | no stored add-ins means none; anything but a dictionary fails |
| Automation.MacroMapRoundTrip | pyword/features/automation.py:554-569 | saved macros load back unchanged under the same keys |
| Automation.AddInMapRoundTrip | pyword/features/automation.py:554-569 | saved add-ins load back unchanged under the same keys |
| Automation.AutomationRoundTrip | pyword/features/automation.py:554-569 | what is saved loads back |
| Automation.AutomationManager.constructor | pyword/features/automation.py:328-348 | the manager starts with no macros or add-ins, not recording, and with the six hooks each empty |
| Automation.AutomationManager.CreateMacro | pyword/features/automation.py:349-353 | a new macro is stored under its id |
| Automation.AutomationManager.DeleteMacro | pyword/features/automation.py:355-360 | true exactly when the id was stored, and the entry is gone |
| Automation.AutomationManager.GetMacro | pyword/features/automation.py:362-364 | the stored macro, and null exactly for an unknown id |
| Automation.AutomationManager.StartRecording | pyword/features/automation.py:370-374 | a new recorded macro is stored and becomes the recording target |
| Automation.AutomationManager.StopRecording | pyword/features/automation.py:376-381 | the recording state is cleared and the macro that was being recorded, or null, is returned |
| Automation.AutomationManager.RecordAction | pyword/features/automation.py:383-387 | while recording the action is appended to the target; otherwise no macro changes |
| Automation.AutomationManager.RunMacro | pyword/features/automation.py:389-434 | false for an unknown or disabled macro, with nothing changed; a successful run raises the run count by exactly one |
| Automation.AutomationManager.InstallAddon | pyword/features/automation.py:465-468 | always true, stored under the add-in's id |
| Automation.AutomationManager.DisableAddon | pyword/features/automation.py:490-498 | true exactly for a known id, whose add-in is then neither enabled nor loaded |
| Automation.AutomationManager.EnableAddon | pyword/features/automation.py:480-488 | true exactly for a known id, whose add-in is then enabled and loaded |
| Automation.AutomationManager.UninstallAddon | pyword/features/automation.py:470-478 | true exactly for a known id; a loaded add-in is disabled first and the entry is removed |
| Automation.AutomationManager.GetAddon | pyword/features/automation.py:500-502 | the stored add-in, and null exactly for an unknown id |
| Automation.AutomationManager.RegisterHook | pyword/features/automation.py:508-513 | succeeds exactly for one of the six hook names, appending the callback; no hook is ever added |
| Automation.AutomationManager.TriggerHook | pyword/features/automation.py:515-524 | every callback of a known hook is called in registration order; an unknown hook calls none |
| Automation.AutomationManager.ToDict | pyword/features/automation.py:554-560 | the saved dictionary holds the stored macros and add-ins |
| Automation.AutomationManager.FromDict | pyword/features/automation.py:562-569 | succeeds exactly when both parts load; the macros are replaced first, so a failing add-in leaves the new macros in place |
| Automation.AutomationManager.GetAutomationInfo | pyword/features/automation.py:571-580 | the counts are the dictionary sizes and the sizes of their enabled and loaded parts, which never exceed them |
| Sections.AttrNamed | pyword/pyword/features/sections.py:141-145 | a name denotes an attribute exactly when the section has an attribute of that name, and that attribute is spelled by the name |
| Sections.AttrNameRoundTrip | pyword/pyword/features/sections.py:25-36 | every attribute is found again under its own name |
| Sections.PutGet | pyword/pyword/features/sections.py:141-145 | writing one attribute and reading any attribute back gives the written value for that attribute and the old value for every other |
| Sections.Attribute | pyword/pyword/features/sections.py:25-36 | an attribute has a value exactly when the section has an attribute of that name |
| Sections.SetAttribute | pyword/pyword/features/sections.py:141-145 | a name the section lacks changes nothing |
| Sections.SetAttributeEffect | pyword/pyword/features/sections.py:141-145 | setting an attribute gives it the new value and leaves every other attribute as it was |
| Sections.SetAttributesUnnamed | pyword/pyword/features/sections.py:141-145 | an attribute no argument names keeps its value |
| Sections.SetAttributesUnknown | pyword/pyword/features/sections.py:141-145 | arguments naming no attribute change nothing |
| Sections.BreakMarker | pyword/pyword/features/sections.py:61-100 | a block is inserted exactly for the four known break types, with a page break before it for every type but Continuous |
| Sections.MarkerDetected | pyword/pyword/features/sections.py:61-100 | every inserted block carries the text that deleting a break looks for |
| Sections.SectionAt | pyword/pyword/features/sections.py:102-113 | the first section whose span holds the position, and none exactly when no span holds it |
| Sections.SpansOf | pyword/pyword/features/sections.py:102-113 | one span per section, its start and end |
| Sections.BreakTarget | pyword/pyword/features/sections.py:102-113 | the section at the found index, or the last section when no span holds the position |
| Sections.Section.constructor | pyword/pyword/features/sections.py:25-36 | a new section has the default attributes |
| Sections.Section.AppliesPageBreak | pyword/pyword/features/sections.py:38-46 | only a Next Page section asks for a page break before its block; Even and Odd Page sections do not, though their inserted block does |
| Sections.Section.SetAttr | pyword/pyword/features/sections.py:141-145 | the one attribute is set as by setattr when it exists |
| Sections.SectionManager.Spans | pyword/pyword/features/sections.py:102-113 | one span per section, its start and end |
| Sections.SectionManager.constructor | pyword/pyword/features/sections.py:52-59 | a new manager holds one default section, which is current |
| Sections.SectionManager.InsertSectionBreak | pyword/pyword/features/sections.py:61-100 | a null cursor inserts nothing; otherwise the current section ends at the cursor and a new section of the type starts there, appended and current, with the type's block |
| Sections.SectionManager.GetCurrentSection | pyword/pyword/features/sections.py:102-113 | the first section holding the position becomes current; failing that the last section is returned and the index kept |
| Sections.SectionManager.GetSectionByIndex | pyword/pyword/features/sections.py:115-119 | the section at an index in range, and null outside it |
| Sections.SectionManager.GetSectionCount | pyword/pyword/features/sections.py:147-149 | the number of sections, at least one in a valid manager, with the last index the highest valid one |
| Sections.SectionManager.DeleteSectionBreak | pyword/pyword/features/sections.py:121-139 | true exactly for a line holding the break marker; then the section get_current_section finds (the first whose span holds the position, else the last) is removed unless it is the first, and the current index becomes that lookup's index less one, floored at 0; a refused line changes nothing |
| Sections.SectionManager.UpdateSectionProperties | pyword/pyword/features/sections.py:141-145 | each argument naming an attribute of the section sets it, in order |
| Sections.SectionManager.NavigateToSection | pyword/pyword/features/sections.py:151-160 | succeeds exactly for an index in range, making that section current and moving the cursor to its start; otherwise nothing changes |
| HeadersFooters.TypeFromName | pyword/features/headers_footers.py:219-232 | a name reads as the type it names, and as none exactly when no type has it |
| HeadersFooters.TypeNameRoundTrip | pyword/features/headers_footers.py:213-232 | every type reads back from its name |
| HeadersFooters.AllTypesComplete | pyword/features/headers_footers.py:8-16 | the six types are all there are |
| HeadersFooters.Rank | pyword/features/headers_footers.py:43-52 | each type has its place in the manager's dictionary insertion order |
| HeadersFooters.EntryToDict | pyword/features/headers_footers.py:22-29 | the dictionary has exactly the keys content, is_linked_to_previous and position |
| HeadersFooters.EntryFromDict | pyword/features/headers_footers.py:30-35 | every key is optional, a missing one taking the dataclass default |
| HeadersFooters.EntryRoundTrip | pyword/features/headers_footers.py:22-35 | an entry reads back unchanged |
| HeadersFooters.DefaultHeaders | pyword/features/headers_footers.py:40-55 | a new manager's entries are empty at 12.7 mm, the first-page ones unlinked and the rest linked |
| HeadersFooters.DefaultHeadersComplete | pyword/features/headers_footers.py:40-55 | a new manager has an entry for every type |
| HeadersFooters.Loaded | pyword/features/headers_footers.py:219-232 | loading replaces each named type's entry and keeps every other |
| HeadersFooters.HeadersValue | pyword/features/headers_footers.py:213-217 | every type is saved under its name |
| HeadersFooters.HeadersRoundTrip | pyword/features/headers_footers.py:213-232 | what is saved loads back in full |
| HeadersFooters.UnknownNamesIgnored | pyword/features/headers_footers.py:219-232 | names that are no type change nothing |
| HeadersFooters.HeaderFields | pyword/features/headers_footers.py:219-232 | missing stored headers mean none; stored headers that are not a dictionary fail |
| HeadersFooters.HeaderFooterManager.constructor | pyword/features/headers_footers.py:40-55 | the manager starts with the default entries |
| HeadersFooters.HeaderFooterManager.SetHeader | pyword/features/headers_footers.py:130-135 | a header type's content is set and a footer type is ignored |
| HeadersFooters.HeaderFooterManager.SetFooter | pyword/features/headers_footers.py:137-142 | a footer type's content is set and a header type is ignored |
| HeadersFooters.HeaderFooterManager.SetHeaderFooterContent | pyword/features/headers_footers.py:144-149 | the named entry's content is always set |
| HeadersFooters.HeaderFooterManager.SetPosition | pyword/features/headers_footers.py:179-184 | only the named entry's position changes |
| HeadersFooters.HeaderFooterManager.SetLinkedToPrevious | pyword/features/headers_footers.py:203-207 | only the named entry's link flag changes |
| HeadersFooters.HeaderFooterManager.GetHeaderFooter | pyword/features/headers_footers.py:209-211 | the entry for the type, if there is one |
| HeadersFooters.HeaderFooterManager.ToDict | pyword/features/headers_footers.py:213-217 | one saved entry per type, under the type's name |
| HeadersFooters.HeaderFooterManager.LoadEntries | pyword/features/headers_footers.py:219-232 | when no stored value fails, the loop replaces exactly the named entries; when one fails, each entry is either kept or already replaced |
| HeadersFooters.HeaderFooterManager.FromDict | pyword/features/headers_footers.py:219-232 | each stored entry under a known name replaces that entry and unknown names are skipped; a value that is not a dictionary fails |
| Columns.LayoutFromName | pyword/pyword/features/columns.py:47-60 | a layout read from a name gives that name back |
| Columns.LayoutNameRoundTrip | pyword/pyword/features/columns.py:38-60 | every layout reads back from its name |
| Columns.PresetWidths | pyword/pyword/features/columns.py:15-27 | every preset has at least one width, and all are positive |
| Columns.PresetWidthsSum | pyword/pyword/features/columns.py:15-27 | every preset's widths sum to the whole width |
| Columns.LeftCountMismatch | pyword/pyword/features/columns.py:136-175 | as written, the narrow-left layout gets one column but two widths |
| Columns.PresetCountsAgree | pyword/pyword/features/columns.py:8-27 | for every other layout the enum value is its number of widths |
| Columns.ColumnCount | pyword/pyword/features/columns.py:136-175 | the corrected count is the number of widths: the written one for every layout but narrow-left, and 2 for it |
| Columns.AsRealsValue | pyword/pyword/features/columns.py:38-60 | a saved width list reads back as itself |
| Columns.SettingsToDict | pyword/pyword/features/columns.py:38-45 | the dictionary has exactly the keys layout, spacing, line_between, equal_width and custom_widths |
| Columns.SettingsFromDict | pyword/pyword/features/columns.py:47-60 | an unknown layout name falls back to one column, and every key takes its default when missing |
| Columns.SettingsRoundTrip | pyword/pyword/features/columns.py:38-60 | saved settings read back unchanged |
| Columns.SelectedWidths | pyword/pyword/features/columns.py:136-175 | the preset's widths when equal widths are asked for or no custom widths are set, and the custom ones otherwise |
| Columns.UpdateFrame | pyword/pyword/features/columns.py:136-175 | one column resets the count and the first width only; any other layout sets the widths, the spacing and a count of abs(layout value) for preset widths (one for LEFT) or one per custom width, with the separator line exactly when asked for with more than one column |
| Columns.LeftFrameAsWritten | pyword/pyword/features/columns.py:147-167 | as written, LEFT reaches the frame as one column with two widths and without the separator line |
| Columns.CorrectedCountFitsFrame | pyword/pyword/features/columns.py:147-164 | the corrected count always equals the number of widths the frame is given |
| Columns.PresetFrameWidths | pyword/pyword/features/columns.py:136-175 | example: two equal columns reach the frame as two widths of 2500 |
| Columns.ColumnManager.constructor | pyword/pyword/features/columns.py:66-74 | the manager starts with the default settings, one column at 12 pt spacing |
| Columns.ColumnManager.UpdateColumns | pyword/pyword/features/columns.py:136-175 | the frame is brought up to date with the settings |
| Columns.ColumnManager.SetLayout | pyword/pyword/features/columns.py:76-81 | a new layout is stored, the frame updated and one change signalled; the current layout changes nothing |
| Columns.ColumnManager.SetSpacing | pyword/pyword/features/columns.py:83-88 | a new spacing is stored, the frame updated and one change signalled; the current spacing changes nothing |
| Columns.ColumnManager.SetLineBetween | pyword/pyword/features/columns.py:90-95 | a new line setting is stored, the frame updated and one change signalled; the current one changes nothing |
| Columns.ColumnManager.SetEqualWidth | pyword/pyword/features/columns.py:97-102 | a new equal-width setting is stored, the frame updated and one change signalled; the current one changes nothing |
| Columns.ColumnManager.SetCustomWidths | pyword/pyword/features/columns.py:104-112 | refused with nothing changed unless the widths are positive and sum to exactly 1; otherwise they are stored, equal widths are off, the frame gets one column per width and one change is signalled |
| Columns.ColumnManager.InsertColumnBreak | pyword/pyword/features/columns.py:114-134 | the frame is brought up to date with the settings |
| Columns.ColumnManager.ToDict | pyword/pyword/features/columns.py:177-179 | the saved dictionary reads back as the settings |
| Columns.ColumnManager.FromDict | pyword/pyword/features/columns.py:181-185 | the settings become those read, the frame is updated and one change signalled; loading what was saved restores the settings |
| Shapes.TypeFromName | pyword/features/shapes.py:264-277 | a shape type read from a name gives that name back |
| Shapes.TypeNameRoundTrip | pyword/features/shapes.py:255-277 | every shape type reads back from its name |
| Shapes.PropertiesToDict | pyword/features/shapes.py:145-158 | the dictionary has exactly the keys x, y, width, height, rotation, z_value, locked, visible and name |
| Shapes.PropertiesFromDict | pyword/features/shapes.py:159-168 | every key is optional; an empty dictionary gives the default properties |
| Shapes.PropertiesRoundTrip | pyword/features/shapes.py:145-168 | properties read back unchanged |
| Shapes.ClassText | pyword/features/shapes.py:372-377 | a shape has a text on creation exactly when it is a text box or a call-out |
| Shapes.ShapeToDict | pyword/features/shapes.py:411-417 | a saved shape has its type and properties, and a text entry holding its text exactly when it has one |
| Shapes.ShapeFromDict | pyword/features/shapes.py:263-275 | a rectangle when nothing is stored; a shape read back has the stored type and the text its class creates it with, whatever text was stored |
| Shapes.ShapeRoundTrip | pyword/features/shapes.py:255-275 | a saved shape reads back with its kind and properties; a text box or call-out returns with the text of a new one |
| Shapes.ShapeReloadLosesText | pyword/features/shapes.py:263-275 | a text box or call-out whose text is not the default one does not read back as itself: its text becomes the default |
| Shapes.TextShapeFromDict | pyword/features/shapes.py:419-426 | reads a shape exactly when Shape.from_dict does, with the same kind and properties; a text box or call-out takes the stored text, empty when missing; the result always has a text exactly for the text kinds |
| Shapes.TextShapeRoundTrip | pyword/features/shapes.py:411-426 | a saved shape built as its class builds it reads back as itself, text included |
| Shapes.ShapesValue | pyword/features/shapes.py:608-613 | every shape is saved in order as its own to_dict, text boxes and call-outs with their text |
| Shapes.ShapesFrom | pyword/features/shapes.py:615-629 | a stored list decodes exactly when every entry does, one shape per entry in order |
| Shapes.ShapesRoundTrip | pyword/features/shapes.py:608-629 | a saved shape list reads back in order, each shape as in ShapeRoundTrip |
| Shapes.ManagerDict | pyword/features/shapes.py:608-613 | the saved shape list is the shapes in order, which reads back with each shape as in ShapeRoundTrip, and the next z value is saved |
| Shapes.MaxOf | pyword/features/shapes.py:594-606 | the largest z value, or 0 for none |
| Shapes.MinOf | pyword/features/shapes.py:594-606 | the smallest z value, or 0 for none |
| Shapes.Shape.constructor | pyword/features/shapes.py:172-180 | a new shape of a kind has the default properties under its class's name, z value 0, and the starting text exactly when it is a text kind |
| Shapes.Shape.SetText | pyword/features/shapes.py:912-914 | a text box or call-out takes the edited text; another kind keeps having none |
| Shapes.CreateShape | pyword/features/shapes.py:278-297 | every type yields a new shape of that type with its class's name, and with the starting text exactly for the text kinds |
| Shapes.ShapeManager.constructor | pyword/features/shapes.py:541-553 | the manager starts with no shapes, no selection and the next z value 1 |
| Shapes.ShapeManager.AddShape | pyword/features/shapes.py:555-561 | the shape is appended with the next z value, which then goes up by one |
| Shapes.ShapeManager.RemoveShape | pyword/features/shapes.py:563-568 | a member shape leaves the list and the selection; an absent one changes nothing |
| Shapes.ShapeManager.SelectShape | pyword/features/shapes.py:570-578 | a single selection is just the shape; a multiple one appends it unless it is already selected |
| Shapes.ShapeManager.DeselectShape | pyword/features/shapes.py:580-585 | the shape leaves the selection |
| Shapes.ShapeManager.ClearSelection | pyword/features/shapes.py:587-592 | the selection is empty |
| Shapes.ShapeManager.BringToFront | pyword/features/shapes.py:594-599 | a member shape rises above every shape's previous z value; any other shape changes nothing |
| Shapes.ShapeManager.SendToBack | pyword/features/shapes.py:601-606 | a member shape sinks below every shape's previous z value; any other shape changes nothing |
| Shapes.ShapeManager.ToDict | pyword/features/shapes.py:608-613 | the shapes are saved in order with their texts and the next z value; read back, each shape returns as in ShapeRoundTrip |
| Shapes.ShapeManager.FromDict | pyword/features/shapes.py:615-629 | the selection is cleared and the stored shapes are created in order with z value 0, each read by Shape.from_dict, so a text box gets its class's starting text; the next z value defaults to one more than the count; the first unreadable entry stops the load |
| Shapes.LoadShapes | pyword/features/shapes.py:615-629 | the stored entries are created in turn as fresh shapes with z 0, each reading back as its entry, text included (the class's starting text), up to the first entry that cannot be read; all of them exactly when every entry reads |
| Performance.FloorDiv | pyword/pyword/features/performance.py:46-79 | Python's floor division: the quotient times the divisor is the greatest multiple not above the dividend |
| Performance.ReadAt | pyword/pyword/features/performance.py:81-103 | a read past the end is empty, and a read never runs past the end of the file |
| Performance.Kept | pyword/pyword/features/performance.py:105-119 | a chunk is kept exactly when it lies within the range of the current one, with its content |
| Performance.KeptIdempotent | pyword/pyword/features/performance.py:105-119 | clearing twice with the same position and range removes nothing more |
| Performance.KeptMonotone | pyword/pyword/features/performance.py:105-119 | a wider range keeps every chunk a narrower one keeps |
| Performance.LargeDocumentOptimizer.constructor | pyword/pyword/features/performance.py:34-44 | the optimiser starts with the given chunk size, nothing cached, no chunks and chunk 0 current |
| Performance.LargeDocumentOptimizer.Cache | pyword/pyword/features/performance.py:81-103 | the chunk is cached under its index |
| Performance.LargeDocumentOptimizer.LoadDocumentChunked | pyword/pyword/features/performance.py:46-79 | fails with nothing changed without a file or with chunk size 0; otherwise counts the chunks and, for a file that cannot be read, fails with only the count changed, and else makes chunk 0 current and caches it |
| Performance.LargeDocumentOptimizer.GetChunk | pyword/pyword/features/performance.py:81-103 | a cached chunk is returned unchanged; otherwise, without a file or at a negative offset nothing comes back and nothing changes, and else the chunk is read from its offset and cached |
| Performance.FarChunks | pyword/pyword/features/performance.py:107-111 | an index is gathered exactly when it is cached and farther than the range from the current chunk |
| Performance.LargeDocumentOptimizer.ClearUnusedChunks | pyword/pyword/features/performance.py:105-119 | exactly the chunks farther than the range from the current one are removed, and the rest keep their content |
| Performance.Recent | pyword/pyword/features/performance.py:526-544 | the last n entries, or all when there are no more than n |
| Performance.RecentSnocLast | pyword/pyword/features/performance.py:526-544 | after an append the new value is the last one kept |
| Performance.MeanBounds | pyword/pyword/features/performance.py:569-581 | the mean lies between the smallest and the largest value |
| Performance.Threshold | pyword/pyword/features/performance.py:517-567 | only memory, render time and save time have a warning threshold |
| Performance.Summarize | pyword/pyword/features/performance.py:583-599 | the minimum, average and maximum are ordered, the extremes are values, and the count is the number of values |
| Performance.PerformanceMonitor.constructor | pyword/pyword/features/performance.py:517-524 | the monitor starts with empty histories for memory, render time and save time and no warnings |
| Performance.PerformanceMonitor.RecordMetric | pyword/pyword/features/performance.py:526-567 | the value is appended, only the last 100 values are kept, it is the last one, and a warning is due exactly when it is strictly above the metric's threshold |
| Performance.PerformanceMonitor.AverageMetric | pyword/pyword/features/performance.py:569-581 | none without data, and the mean of the history otherwise |
| Performance.PerformanceMonitor.MetricsSummary | pyword/pyword/features/performance.py:583-599 | an entry exactly for each metric with data, with min, average and max ordered and the count the history's length |
| AdvancedImages.Byte | pyword/features/advanced_images.py:429-431 | the low byte lies in 0..255 |
| AdvancedImages.QGray | pyword/features/advanced_images.py:424-426 | the gray level of a pixel lies in 0..255 |
| AdvancedImages.QRgbChannels | pyword/features/advanced_images.py:424-431 | a packed pixel unpacks to the low bytes of its channels and an opaque alpha |
| AdvancedImages.GrayOfGray | pyword/features/advanced_images.py:424-431 | a gray pixel reads back as its own gray level |
| AdvancedImages.GrayPixelIdempotent | pyword/features/advanced_images.py:377-384 | converting a pixel to gray twice changes nothing more |
| AdvancedImages.Clamp | pyword/features/advanced_images.py:407-420 | a channel is clamped into 0..255, and one already inside is kept |
| AdvancedImages.BrightenedChannels | pyword/features/advanced_images.py:407-420 | each channel of a brightened pixel is the old channel plus the factor, clamped into 0..255 |
| AdvancedImages.ConvertToGrayscale | pyword/features/advanced_images.py:377-384 | every pixel of the image, in place, becomes its gray level |
| AdvancedImages.AdjustBrightness | pyword/features/advanced_images.py:407-420 | a new image of the same size with every pixel brightened |
| AdvancedImages.SplitHead | pyword/features/advanced_images.py:358-359 | everything before the first occurrence of the pattern: a prefix without it, and the whole string when it is absent |
| AdvancedImages.OriginalPath | pyword/features/advanced_images.py:358-359 | the original path is a prefix of the image's path |
| AdvancedImages.OriginalPathClean | pyword/features/advanced_images.py:358-359 | the original path has none of the rotated, flipped or cropped markers |
| AdvancedImages.OriginalPathIdempotent | pyword/features/advanced_images.py:358-359 | deriving the original path twice gives the same path |
| AdvancedImages.RotatedPath | pyword/features/advanced_images.py:156 | a rotated image is saved under its path followed by the rotated marker |
| AdvancedImages.FlippedPath | pyword/features/advanced_images.py:190-191 | a flipped image is saved under its path followed by the h or v flip marker |
| AdvancedImages.CroppedPath | pyword/features/advanced_images.py:225 | a cropped image is saved under its path followed by the cropped marker |
| AdvancedImages.EffectPath | pyword/features/advanced_images.py:266 | an effect's image is saved under its path, an underscore and the effect name, as a .png |
| AdvancedImages.BrightPath | pyword/features/advanced_images.py:300 | a brightened image is saved under its path followed by the bright marker |
| AdvancedImages.ResetAfterRotate | pyword/features/advanced_images.py:350-375 | a rotated file leads back to the original of the file it came from |
| AdvancedImages.ResetAfterFlip | pyword/features/advanced_images.py:350-375 | a flipped file leads back to the original of the file it came from |
| AdvancedImages.ResetAfterCrop | pyword/features/advanced_images.py:350-375 | a cropped file leads back to the original of the file it came from |
| AdvancedImages.ResetToOriginal | pyword/features/advanced_images.py:350-375 | the image is reset exactly when there is a current image whose original path loads, and then to that marker-free path |
| Styles.HeadingStyle | pyword/pyword/features/styles.py:41-46 | a heading style sets its point size, its weight (bold or normal) and its italic flag |
| Styles.DefaultStyles | pyword/pyword/features/styles.py:5-34 | the document starts with exactly the Normal, three Heading, Quote and Code styles |
| Styles.HeadingSizes | pyword/pyword/features/styles.py:5-46 | example: headings shrink from 18 to 16 to 14 points, and only level 3 is italic |
| Styles.Theme | pyword/pyword/features/styles.py:5-34 | a theme has exactly the background, text, highlight and accent colours |
| Styles.DefaultThemes | pyword/pyword/features/styles.py:5-34 | the document starts with exactly the Light, Dark and Sepia themes, each with every colour role |
| Styles.DocumentStyles.constructor | pyword/pyword/features/styles.py:5-34 | a new document has the default styles and themes, with Light current |
| Styles.DocumentStyles.GetStyle | pyword/pyword/features/styles.py:68-69 | the named style, or Normal for an unknown name |
| Styles.DocumentStyles.SetTheme | pyword/pyword/features/styles.py:71-75 | a theme becomes current exactly when it is known; otherwise nothing changes |
| Styles.DocumentStyles.GetThemeColors | pyword/pyword/features/styles.py:77-78 | the current theme's colours, or Light's when it is unknown; with the starting themes every colour role is present |
| Accessibility.LandmarksOfType | pyword/features/accessibility.py:148-160 | the landmarks of one type: no more than all of them, and exactly those registered with that type |
| Accessibility.LandmarksOfTypeSnoc | pyword/features/accessibility.py:133-160 | registering a landmark extends the filtered list at its end exactly when the landmark has the requested type |
| Accessibility.PositionMessage | pyword/features/accessibility.py:84-94 | the position message starts with the line number |
| Accessibility.Preview | pyword/features/accessibility.py:96-109 | a selection of at most 50 characters is shown whole; a longer one as its first 50 characters and an ellipsis |
| Accessibility.SelectionAnnouncement | pyword/features/accessibility.py:96-109 | an empty selection announces "Selection cleared" at low priority; otherwise the count and preview are announced |
| Accessibility.FormattingParts | pyword/features/accessibility.py:111-131 | one part per set attribute, and each part is present exactly when its attribute is set |
| Accessibility.FormattingMessage | pyword/features/accessibility.py:111-131 | no set attribute gives "No formatting"; otherwise the message lists the set attributes |
| Accessibility.ScreenReaderSupport.constructor | pyword/features/accessibility.py:39-43 | a new screen reader is enabled, with no landmarks and nothing announced |
| Accessibility.ScreenReaderSupport.Announce | pyword/features/accessibility.py:54-70 | a message is emitted, with its priority, exactly while the reader is enabled |
| Accessibility.ScreenReaderSupport.Enable | pyword/features/accessibility.py:45-48 | enabling switches the reader on and announces it |
| Accessibility.ScreenReaderSupport.Disable | pyword/features/accessibility.py:50-52 | disabling switches the reader off |
| Accessibility.ScreenReaderSupport.AnnounceDocumentPosition | pyword/features/accessibility.py:84-94 | while enabled, the position message is announced; otherwise nothing |
| Accessibility.ScreenReaderSupport.AnnounceSelection | pyword/features/accessibility.py:96-109 | while enabled, the selection announcement is emitted; otherwise nothing |
| Accessibility.ScreenReaderSupport.AnnounceFormatting | pyword/features/accessibility.py:111-131 | while enabled, the formatting message is announced; otherwise nothing |
| Accessibility.ScreenReaderSupport.RegisterLandmark | pyword/features/accessibility.py:133-146 | the landmark is appended to the registered ones |
| Accessibility.ScreenReaderSupport.GetLandmarks | pyword/features/accessibility.py:148-160 | without a type, every landmark; with one, exactly those of that type |
| Accessibility.ScreenReaderSupport.ClearLandmarks | pyword/features/accessibility.py:162-164 | no landmark is left |
| Accessibility.NavigationShortcuts | pyword/features/accessibility.py:193-228 | the eleven navigation shortcuts and their descriptions |
| Accessibility.KeyboardNavigation.constructor | pyword/features/accessibility.py:178-182 | a new navigator has no shortcuts and is not in navigation mode |
| Accessibility.KeyboardNavigation.RegisterShortcut | pyword/features/accessibility.py:230-249 | with a parent window the shortcut is recorded, replacing an earlier one for the same keys; without one nothing changes |
| Accessibility.KeyboardNavigation.EnableNavigationMode | pyword/features/accessibility.py:184-228 | navigation mode is on and, with a parent, the navigation shortcuts are registered over the existing ones |
| Accessibility.KeyboardNavigation.DisableNavigationMode | pyword/features/accessibility.py:189-191 | navigation mode is off |
| Accessibility.KeyboardNavigation.UnregisterShortcut | pyword/features/accessibility.py:251-260 | the shortcut for those keys is removed, and no other |
| Accessibility.KeyboardNavigation.GetAllShortcuts | pyword/features/accessibility.py:262-269 | every registered key sequence with its description |
| Accessibility.NavigationShortcutsListed | pyword/features/accessibility.py:184-228 | with a parent, every navigation shortcut is listed after navigation mode is enabled, whatever was registered before |
| Accessibility.BasePalette | pyword/features/accessibility.py:339-382 | the palette every theme starts from has exactly the palette roles |
| Accessibility.BuiltinThemes | pyword/features/accessibility.py:339-382 | the built-in themes are exactly the listed ones and each has the five colours the palette needs |
| Accessibility.HighContrastMode.constructor | pyword/features/accessibility.py:333-337 | a new mode uses the default theme, knows the built-in themes and has no custom ones |
| Accessibility.HighContrastMode.SetTheme | pyword/features/accessibility.py:384-400 | a theme is accepted exactly when it is built in or custom, and then becomes current; otherwise nothing changes |
| Accessibility.HighContrastMode.AddCustomTheme | pyword/features/accessibility.py:437-445 | a new custom name goes at the end of the order, a known one keeps its place and gets the new colours |
| Accessibility.HighContrastMode.GetAvailableThemes | pyword/features/accessibility.py:447-454 | the built-in names in order, then the custom names in order |
| Accessibility.HighContrastMode.GetCurrentTheme | pyword/features/accessibility.py:456-463 | the current theme's name |
| Accessibility.ClampRate | pyword/features/accessibility.py:596-605 | the rate is clamped into 0.5..2.0, and one already inside is kept |
| Accessibility.ClampRateIdempotent | pyword/features/accessibility.py:596-605 | clamping a clamped rate changes nothing |
| Accessibility.TextToSpeech.constructor | pyword/features/accessibility.py:529-537 | a new speaker is silent, unpaused, at rate 1.0, with the default voice |
| Accessibility.TextToSpeech.Speak | pyword/features/accessibility.py:550-571 | non-empty text becomes the current text and is spoken unpaused; empty text changes nothing |
| Accessibility.TextToSpeech.Stop | pyword/features/accessibility.py:573-580 | speech stops and is no longer paused |
| Accessibility.TextToSpeech.Pause | pyword/features/accessibility.py:582-586 | running speech is paused; otherwise nothing changes |
| Accessibility.TextToSpeech.Resume | pyword/features/accessibility.py:588-594 | paused speech is unpaused and, with an engine, the current text is spoken again |
| Accessibility.TextToSpeech.SetRate | pyword/features/accessibility.py:596-605 | the rate becomes the clamped value |
| Accessibility.TextToSpeech.SetVoice | pyword/features/accessibility.py:607-620 | the voice becomes the one given |
| Accessibility.DefaultFeatures | pyword/features/accessibility.py:668-681 | every feature is known; the screen reader, keyboard navigation and speech start on, high contrast off |
| Accessibility.SetFlag | pyword/features/accessibility.py:700-734 | one known flag is set and the other flags are kept; an unknown name changes nothing |
| Accessibility.AllFlags | pyword/features/accessibility.py:736-744 | every flag takes the given value |
| Accessibility.FeatureEnabled | pyword/features/accessibility.py:746-756 | a feature is on exactly when it is known and its flag is set |
| Accessibility.WithLevelFlags | pyword/features/accessibility.py:683-698 | NONE switches every feature off, FULL every one on, BASIC only the screen reader and keyboard navigation on, keeping the rest |
| Accessibility.WithLevelIdempotent | pyword/features/accessibility.py:683-698 | setting the same level twice is the same as setting it once |
| Accessibility.AccessibilityManager.constructor | pyword/features/accessibility.py:668-681 | a new manager is at the basic level with the default features and fresh components |
| Accessibility.AccessibilityManager.EnableFeature | pyword/features/accessibility.py:700-715 | a known flag is set and its component switched on |
| Accessibility.AccessibilityManager.DisableFeature | pyword/features/accessibility.py:717-734 | a known flag is cleared and its component switched off; disabling speech stops it |
| Accessibility.AccessibilityManager.EnableAllFeatures | pyword/features/accessibility.py:736-739 | every flag is on, and the screen reader and keyboard navigation are switched on |
| Accessibility.AccessibilityManager.DisableAllFeatures | pyword/features/accessibility.py:741-744 | every flag is off, the screen reader and keyboard navigation are switched off and speech is stopped |
| Accessibility.AccessibilityManager.SetAccessibilityLevel | pyword/features/accessibility.py:683-698 | the level is recorded and the flags become those the level sets |
| Accessibility.AccessibilityManager.IsFeatureEnabled | pyword/features/accessibility.py:746-756 | a feature is on exactly when it is known and its flag is set |
| Accessibility.AccessibilityManager.GetFeatureStatus | pyword/features/accessibility.py:758-765 | a copy of exactly the feature flags |

## Left out

- Qt user interface: dialogs, toolbars, panels other than the heading scan, painting and every `Signal.emit`. These are widget wiring with no bookkeeping logic.
- Undo and redo: the editor delegates them entirely to `QTextDocument`.
- File I/O: `Document.save`/`load`/`open_document`/`save_as`, the DOCX, ODT and PDF writers, the RTF and HTML importers, CSV and JSON data-source loading, BibTeX and JSON citation export, and comment and change import/export. These are the filesystem and foreign libraries.
- The document template load, document listeners and the page setup manager's dialogs: they are Qt or I/O.
- Editor: only the zoom factor and the word statistics are modelled; the other editor methods drive the Qt widget.
- Cursor and frame edits inside the managers: caption, note-mark, TOC and bibliography insertion, page-number and header/footer frames, and comment highlighting. Positions, and the text under the cursor, are parameters instead.
- Track changes: `QTextCursor.setPosition` ignores an out-of-range position, so the edit happens at the editor's cursor. That cursor is the parameter `here` (`TrackChanges.OutOfRangeEditsAtCursor`). A `here` outside the text, which Qt never holds, is brought into it.
- Track changes: `accept_all_changes` and `reject_all_changes` pass the same editor cursor to every step. How Qt moves the editor's cursor between steps is not modelled.
- Track changes: what the editor's cursor reports at each `textChanged` (`TrackChanges.Report`) is a parameter. `OnTextChanged` takes one report. `AcceptChange` and `RejectChange` take the report for the signal their edit emits. The all-changes loops take a list, `reports`.
- `TrackChanges.TrackChangesManager.AcceptAllChanges` and `RejectAllChanges`: once `reports` is used up, the editor is taken to report `Quiet`, which records nothing. Each accepted insertion applies a format and so emits `textChanged` again, so the source's loop can go on appending records; the model's loop stops there, and a longer run is not modelled.
- Track changes: `textChanged` is taken to fire exactly when an edit removes or inserts text, or applies a format to at least one character (`TrackChanges.Fires`). The signal the `mergeCharFormat` calls of `_record_insertion` and `_record_deletion` would emit re-entrantly (track_changes.py:164, 181) is left out. So is a second connection of `_on_text_changed` by a repeated `enable_tracking`.
- Cross references: the document text is its plain text. `toPlainText` turns a line separator (U+2028) into a newline and a non-breaking space into a space, while `selectedText` would keep them; the model does not tell them apart. Only the paragraph break becomes U+2029 (`CrossReferences.QtSelected`).
- Floating point: the editor zoom, the page-setup margins and sizes, the performance metrics, the accessibility speech rate and the column widths are exact reals. Float rounding is not modelled.
- `Editor.ZoomInOut`: zooming in and then out is the identity for exact reals only. In floating point, after `set_zoom(0.3)` it gives 0.30000000000000004, since `0.3 + 0.1` is 0.4 and `0.4 - 0.1` rounds up.
- `Performance.MeanBounds`, `Performance.Summarize` and `Performance.PerformanceMonitor.MetricsSummary`: the mean lies between the minimum and the maximum for exact reals; a float sum can round the mean just outside them.
- Text helpers: `IsSpace`, `Lower`, `Upper` and `IsUpper` cover ASCII only. Python's `str.split`, `strip`, `lower`, `upper`, `isupper` and `capitalize` also handle non-ASCII whitespace and letters.
- `Editor.WordCountOf`: words are split on ASCII whitespace only, where `str.split()` also splits on Unicode whitespace.
- `DocumentMap.ClassifyLine`: `strip` and `isupper` are ASCII-only, so a line with non-ASCII letters or spaces can be classified differently.
- `Captions.CaptionsManager.PrefixFor` and `Citations.Key`: `capitalize` and the lower-casing of sort keys are ASCII-only.
- Document: `__post_init__` also builds a header/footer manager with a default header and footer (lines 104-115) and a note manager (line 118). Those objects live on the Qt side and are left out.
- `Document.PathName`: trailing slashes are stripped, but "." components and repeated slashes inside the path are not normalised as `pathlib` does.
- `Document.PostInit`: the default header and footer it writes are not part of the model.
- Page setup: `margins: PageMargins = PageMargins()` (page_setup.py:55) is a mutable dataclass default. Python 3.11 and later reject it with ValueError when the class is created; earlier versions share one margins object among all setups. Setups are values here, so neither effect is modelled.
- `Performance.LargeDocumentOptimizer.LoadDocumentChunked`: whether an existing file can be opened and read as UTF-8 is the parameter `readable`.
- Footnotes: the manager requires start numbers that the symbols style can format (-5 or more). The program sets them only from spin boxes whose minimum is 1 (footnotes.py:629-648). Below -5, `_format_number` itself is modelled as failing (`Footnotes.SymbolMark`).
- Renumbering: the source sorts and then enumerates; the model computes each item's rank among the items of its type. This equals the position after a stable sort by position.
- Object identity in lists (`in`, `index`, `remove` on objects) is value equality or a list index; where the source's objects are distinct, the two agree.
- Hashing: PBKDF2-HMAC-SHA256 (section 5.2 of RFC 8018) and SHA-256 (FIPS 180-4) are injective stand-ins that keep their input visible, since the real functions are outside the model.
- `uuid4` identifiers, `secrets.token_bytes` salts and `datetime.now()` are parameters.
- ISO 8601 timestamps are strings of one fixed format, compared as strings; `isoformat`/`fromisoformat` are the identity on them, and timestamp normalisation is left out.
- A value of the wrong JSON type under a key is read as the key's default; Python would keep whatever value was stored.
- `TOCEntry.from_dict`: recursion through the children's dictionaries takes a fuel bound; the round trip holds for any fuel at least the tree's height.
- `_build_hierarchy`: heading levels are required to lie in 1..9, since the source's ten-slot stack raises `IndexError` from level 10 on and the heading scan produces no level below 1.
- TOC entries are values, so the aliasing between the stack and the children lists is not observable.
- Mail merge: the results of `validate_merge_fields` are sets, because the source's lists carry no meaning in their order. The progress dialog's cancel button is left out, as Qt.
- `MailMerge.PyStr` and `MailMerge.AsRecord`: a record's float, list and dict values are read as absent. The merge would substitute `str(value)`; Python's text forms of floats and containers are not modelled.
- `MailMerge.AsRecords`: a stored record that is not a dict reads as the empty record. For a falsy value (None, "", 0, an empty list) that is what the merge does with it. A truthy one makes `record.get` raise AttributeError during the merge, which is not modelled.
- Mail merge: `get_field_value` returns the record's raw value; the model holds the text `str` gives it.
- Mail merge: a record is saved as an ordered dict (`Json.Pairs`). A stored record given as an unordered `Json.Obj` reads as the empty record.
- Automation: `CustomXMLPart` and the XML parts use ElementTree and minidom, which are foreign libraries.
- Automation: the outcomes of `exec` on a macro script and of `_execute_action` against the editor are the parameters `scriptOk` and `actionsOk`.
- Automation: `get_all_macros`/`get_all_addins` have no member of their own. They list the dictionary's values, which the manager's maps hold directly; the list's order is not modelled.
- Automation: a stored `actions` value that is not a list makes the load fail, where Python would iterate a string or a dictionary.
- Automation: `trigger_hook` passes its arguments to callbacks, which are opaque here; hooks record callback names.
- Security: `from_dict` keeps the old state when a value cannot be read, where the source has already assigned the fields read before the error.
- Security: signatures are values, so an outside reference to a signature object does not see `invalidate_signatures`. `get_all_signatures` has no member of its own: it copies the `signatures` list, which is a sequence value here.
- Headers and footers: entries are values, so the aliasing of the object returned by `get_header_footer` is lost; `from_dict` visits the types in the manager's dictionary insertion order (headers_footers.py:43-52) rather than in the order of the loaded dictionary's keys, which differs only in the partial state before an error.
- Sections: an ill-typed value for a typed attribute in `update_section_properties` is ignored, where Python would store it; names that `hasattr` finds among methods and dunder attributes are ignored too.
- Sections: the cursor position and line text are parameters; `insert_section_break` returns the block it would insert rather than editing the document.
- Sections: `current_section_index` is a natural number.
- Columns: widths are exact reals, so the float rounding in `set_custom_widths`' `sum(widths) != 1.0` test is not modelled.
- Columns: `_update_columns` calls `setColumns`, `setColumnWidth`, `setColumnCount`, `setColumnWidths` and `setColumnSpacing` (columns.py:142-164), which `QTextFrameFormat` is not known to provide. If they are absent, the Qt call raises `AttributeError` after the setting is stored. The model records the intended frame instead.
- `Columns.ColumnManager.UpdateColumns`, `SetLayout`, `SetSpacing`, `SetLineBetween`, `SetEqualWidth`, `SetCustomWidths`, `InsertColumnBreak` and `FromDict`: the stored settings are as modelled, but the recorded frame and the change notification assume the Qt calls succeed.
- Columns: the Qt root-frame format is recorded as a `FrameLayout` of column count, spacing and widths. The aliasing of the `_sections` list is lost.
- `Columns.ColumnManager.InsertColumnBreak`: only the column-break block is modelled, not the document edit.
- Shapes: `ShapeStyle`/`TextStyle` colours and fonts are omitted, as are the `'style'` and `'text_style'` entries of the dictionaries, and the call-out's pointer position. Painting, `setSelected` flags and signals are left out. Loaded shapes get z 0, as in the source.
- Performance: file size and seeks are in characters rather than bytes, and encoding errors are left out.
- Performance: the warning callback is left out, and a warning is recorded as its metric name.
- Performance: `BackgroundSaver` (a thread), `AutoRecovery` (a timer and backup files) and `MemoryManager` (weakref, gc, psutil) are concurrency outside the model.
- Images: image loading, saving and cursor formatting through QImage are left out. The rotation angle and the brightness factor are integers.
- Images: the sepia and contrast pixel loops are floating-point and are left out.
- `AdvancedImages.ResetToOriginal`: the original path strips only the rotated, flipped and cropped markers, as the source does; the effect, bright and compressed suffixes are not stripped.
- Accessibility: palette application (`_apply_theme`), the WCAG contrast ratio and `validate_theme_contrast` are Qt and floating-point.
- Accessibility: the `QShortcut` callbacks and the navigation actions they run are Qt.
- Accessibility: the pyttsx3 engine, `get_available_voices` and `read_selection`/`read_document` are left out; whether an engine exists is a parameter.
- Accessibility: `QAccessible` updates and focus announcements are Qt.
- Styles: the Qt text formats are recorded as the option fields they set.
- Comments: `add_comment` with a start position but no end position is not modelled; a span is either given whole or taken from the cursor.
- Citations: the IEEE number of a citation is found by value equality, as in the source's `list.index`.

## Findings

| source | as written | input that shows it | evidently intended | confidence | as-written member | corrected member |
|---|---|---|---|---|---|---|
| pyword/features/cross_references.py:346-356 | a reference counts as broken when its resolved text starts with "[" and ends with "]" | a valid bookmark named "[Draft]" that a reference points at | a reference is broken when its target does not exist | not executed | CrossReferences.BracketedNameFlagged | CrossReferences.CrossReferencesManager.FindMissingTargets |
| pyword/features/citations.py:140-149 | `edit_citation` copies the values of `to_dict`, so `created` becomes an ISO string | any edit of a citation followed by `to_dict`, which calls `isoformat()` on that string and raises | `created` stays a `datetime` across an edit | not executed | Citations.EditedAsWrittenCannotSerialise | Citations.EditedSerialises |
| pyword/pyword/features/columns.py:136-175 | the column count is `abs(layout.value)`, so LEFT (-1) gives one column | the LEFT layout, which has two widths | the column count equals the number of widths | not executed | Columns.LeftFrameAsWritten | Columns.CorrectedCountFitsFrame |
| pyword/features/shapes.py:615-629 | `ShapeManager.from_dict` reads every entry with the base `Shape.from_dict` (lines 263-275), which never reads the stored text | a saved text box whose text is "Hello", which reloads as "Double-click to edit" | a text box or call-out reloads with its stored text, as `TextBoxShape.from_dict` (lines 419-426) reads it | not executed | Shapes.ShapeReloadLosesText | Shapes.TextShapeRoundTrip |
| pyword/features/track_changes.py:146-151 | a typed insertion is recorded at the cursor position after the typed text | typing "x" at the start of "ab", then rejecting that change, gives "xb" | rejecting an insertion removes the typed text | not executed | TrackChanges.RejectRecordedInsertionAsWritten | TrackChanges.RejectCorrectedInsertionUndoes |

The managers keep the code as written (`find_broken_references`, `_update_columns`, `edit_citation`, the shape load and the recorded insertion). Each corrected member stands beside them with the intended property proved about it.
