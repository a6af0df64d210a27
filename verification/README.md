# llmbridge, modelled and proved in Dafny

llmbridge is a gateway in front of LLM venues. Its hard parts are small byte-level machines that
have to give the same answer however the bytes are cut. This project models them in Dafny and
proves what they are for; it follows the C++ under `provider/`, `gateway/` and `net/`.

**The streaming request body.** A client's JSON is forwarded while it arrives, under a
Content-Length declared before the body is known.

- `Json` is the RFC 8259 grammar as concrete syntax trees. `Automaton` reads one byte at a time;
  `BodyScan` is the resumable class (a 64-bit word for the stack, keys as offsets), proved to agree
  with it on every arrival, and `ScanCuts` says when its safe point depends on the cut.
  `ScanGrammar`, `ScanParse`, `ScanRules`, `ScanRoot` and `ScanAccepts` prove that for every
  configuration and every byte string the scan accepts exactly the JSON texts that fit its rules;
  `ScanPlaces` and `ScanReasons`, why it refuses any other, told by the part of a tree read so far.
- `SafePoints` proves what the forwarded prefix never does. `Splicing`, `SpliceStream` and
  `SpliceAppend` are the rewrite of a body in flight: chunk by chunk it equals the splice of the
  whole, and meets the declared length. `SplicePieces`, `SpliceMarks`, `SpliceTree` and
  `SpliceResult` prove what a venue reads of it. `JsonTree`, `JsonKeys`, `JsonEscapes` and
  `JsonParser` say what the parser with a tree takes; `HeldRewrite`, `HeldText` and `HeldAgrees` that
  the rewrite of a body held whole says the same as the stream, and exactly when it is done at all.
- `UploadFacts` and `Upload` are the engine's side: arrivals, confirms, refusals, resends, parking
  and timeouts, with the bytes staged always the image of the first `body_sent` bytes, and a body
  refused or not confirmed always short of what the venue was told. `Deadlines` is its clock.
  `Engine` holds any number of uploads that share one count of bodies streaming, `Slots`: after every
  step of any of them the count is the number of uploads whose body is streaming.
- `JsonScan` and `JsonWalk` are the readers that walk the text without a tree.

**The streaming response.** `SseLines` and `SseReader` read server-sent events; `Translator`,
`TranslatorOrder`, `TranslatorEnd`, `SanitizedText` and `SseTranslator` turn Anthropic's events into
OpenAI's chunks; `Chunked`, `ChunkFrames` and `Framer` are the chunked coding and the HTTP framing.

**Around them.** `Resolver` is the protocol between the loop and the resolver thread, over every
interleaving. `Fips180`, `Fips180Facts` and `Sha256` are the hash. `Decimals`, `UnitInterval` and
`Picodollars` are exact arithmetic on the digits of a number. `Accounting` judges the attempts before
a fallback.
`Messages`, `MessageText`, `MessageBuilder`, `MessageRequest` and `MessageJson` are the request
translation, an imperative string builder proved to print a structural translation, which
`MessageReader` reads back. `Options`, `Parts`, `Numbers`, `JsonStrings`, `Sorting`, `Modulo`, `Bits`
and `KindWord` serve the rest.

Conventions. A byte is a `char`, a byte string a `string`, except in the hash, where it is a `bv8`.
`SIZE_MAX` for "not known" is `None`; a mask of bits is a set of fields. Where the source updates
an object in place the model is a class whose methods are proved against functions, and the
theorems are about those functions. `hide` keeps definitions out of proofs that do not need them.
`dafny verify dfyconfig.toml` checks the whole project.

What the proofs show about the code, each with its input or its exact condition:

- The scan takes bodies that the held rewrite refuses, since the parser wants every object's keys
  apart and the scan checks only the root's and `stream_options`' (`HeldAgrees.HeldTakes` has the
  exact condition, `HeldAgrees.NestedRepeat` the input).
- Once a byte is refused, `safe()` depends on how the body was cut, since `feed` leaves its position
  at the start of the refusing arrival (`ScanCuts.CutDiffers` says exactly when,
  `ScanCuts.SafeDependsOnCut` where).
- A chunk decoder that fails leaves `consumed()` where it was before that feed, so the count depends
  on the cut too (`Chunked.CountDiffers`, `Chunked.CountDependsOnCut`).
- Whether the SSE reader's cap on an unfinished line trips depends on where the stream is cut
  (`SseReader.LineCapDependsOnCut`); `SseReader.ReadParts` says exactly when it does.
- `unit_interval` misreads numbers of more than 100000 digits whose exponent outruns the cap
  (`UnitInterval.LongMisleads`; `UnitInterval.Decide` has the exact condition), and `picodollars`
  those of more than 300 bytes in the same way (`Picodollars.LongMisscaled`); it also drops what a
  nineteenth digit would round to (`Picodollars.LastDecimal`). `Picodollars.AnswerIs` is exact on both.
- The guard in `pump_body` and in the dispatch that withholds a head decision's last byte never
  fires: by then the confirm has been given or the body is not whole (`Upload.Upload.Advance` and
  `Upload.Upload.StageFirst` send everything safe).

Where a comment and the code differ, the model follows the code.

## Model

| member | source | states |
|---|---|---|
| `Automaton.RunAppend` | provider/src/body_scan.cpp:95-107 | Reading two pieces in turn is reading their concatenation: state, holds and spans depend only on the bytes so far |
| `Automaton.RunRefused` | provider/src/body_scan.cpp:89-97 | A refusal is final: no later byte changes any of the state |
| `KindWord.Push` | provider/src/body_scan.cpp:322-324 | The 64-bit word with one bit set or cleared mirrors the container stack with one kind pushed, every kind below unchanged |
| `KindWord.Top` | provider/src/body_scan.cpp:129-129 | The bit below the depth tells whether the innermost container is an object |
| `KindWord.Pop` | provider/src/body_scan.cpp:347-349 | Lowering the depth alone leaves a word that mirrors the stack without its top |
| `BodyScan.BodyScan.constructor` | provider/src/body_scan.cpp:65-87 | A scanner as reset() leaves it has read nothing and agrees with the automaton's start |
| `BodyScan.BodyScan.ValueDone` | provider/src/body_scan.cpp:110-131 | A closed value leaves the object in the state the automaton gives, the next state read off the word |
| `BodyScan.BodyScan.KeyDone` | provider/src/body_scan.cpp:134-175 | Keys kept as offsets are refused, held and released as the automaton does with their text |
| `BodyScan.BodyScan.KeySet` | provider/src/body_scan.cpp:164-174 | The repeated-key search over spans decides membership of the key's text, and the 256 cap |
| `BodyScan.StringStop` | provider/src/body_scan.cpp:184-191 | Finds the first quote, backslash or control byte, past plain bytes only |
| `BodyScan.BodyScan.StringRun` | provider/src/body_scan.cpp:184-204 | A run of string bytes with its two-byte escapes taken at once ends where the automaton does byte by byte |
| `BodyScan.BodyScan.StepNumber` | provider/src/body_scan.cpp:223-256 | A number ends at a byte its container reads again, as the automaton's two-in-one step does |
| `BodyScan.BodyScan.Punct` | provider/src/body_scan.cpp:261-350 | Every byte between tokens: containers opened and closed, keys opened, values begun, as the automaton |
| `BodyScan.BodyScan.Advance` | provider/src/body_scan.cpp:179-350 | One step of the class is one or more bytes of the automaton |
| `BodyScan.BodyScan.Feed` | provider/src/body_scan.cpp:95-107 | After any feed the object agrees with the automaton on every byte fed; verdict, reason and spans follow, and the position is past them all, or where it was if a byte was refused |
| `BodyScan.ScanParts` | provider/src/body_scan.cpp:95-107 | However a body is cut into arrivals, verdict, reason and spans are those of the whole; so is the safe point while no byte is refused, and else it is the whole's hold or the end of the arrivals before the refused byte's, whichever is first |
| `ScanCuts.BodyHeldLater` | provider/src/body_scan.cpp:273-326 | Whatever was read, nothing is ever held from the body's first byte on |
| `ScanCuts.CutDiffers` | provider/src/body_scan.cpp:95-107 | For every body and cut, the safe point of one arrival and of two differ if and only if the first part holds a byte and a byte is refused in the second |
| `ScanCuts.SafeDependsOnCut` | provider/src/body_scan.cpp:95-107 | An input where they do: with all keys checked, a repeated key after seven bytes leaves 0 fed whole and 7 fed in two |
| `ScanGrammar.RunValue` | provider/src/body_scan.cpp:179-350 | Over the text of any well-formed tree the byte-wise scan ends in the state that following the tree gives |
| `ScanParse.ParseDoc` | provider/src/body_scan.cpp:95-350 | Every body the scan takes is the text of a well-formed RFC 8259 tree, which the lemma builds |
| `ScanRules.AbsorbQuiet` | provider/src/body_scan.cpp:110-131 | A value nothing is tracked about is refused exactly when it nests past 64, and else only closes |
| `ScanRules.OptionMembers` | provider/src/body_scan.cpp:134-175 | The keys of stream_options are refused exactly when escaped, repeated or past 256, or nested too deep |
| `ScanRoot.RootMember` | provider/src/body_scan.cpp:134-175 | A root member is refused exactly when it breaks a key rule, a mask rule or the depth |
| `ScanRoot.RootMembers` | provider/src/body_scan.cpp:134-175 | The members of the root object are refused exactly when one of them breaks a rule |
| `ScanAccepts.RootFits` | provider/src/body_scan.cpp:293-345 | From the start, a tree is refused exactly when it does not fit the rules of the configuration |
| `ScanAccepts.DoneExactly` | provider/src/body_scan.cpp:95-350 | Automaton equals grammar: for every configuration and byte string, Done if and only if the bytes are one RFC 8259 text that fits the rules on depth, keys and masked members |
| `ScanPlaces.StepStands` | provider/src/body_scan.cpp:179-350 | Every byte that is not refused lengthens by itself the text of the part of a tree the scan stands at |
| `ScanReasons.StepReason` | provider/src/body_scan.cpp:134-350 | At every part of a tree, a byte is refused exactly with the reason that part and byte give: a key escaped, repeated or past 256 where keys are checked, a value past 64 containers or of the wrong kind, a control byte, content after the end, or no JSON |
| `ScanReasons.ReasonIs` | provider/src/body_scan.cpp:89-107 | For every configuration and body: no reason if and only if it is one JSON text that fits; ends inside only if all of it is the text of a part of a tree; any other only if the bytes before some byte are, and that part and byte give this reason |
| `ScanReasons.CutShort` | provider/src/body_scan.cpp:106-106 | Every strict prefix of an acceptable body that is not acceptable itself ends inside a value |
| `ScanReasons.ReasonStays` | provider/src/body_scan.cpp:89-97 | Whatever follows, a reason given by a refused byte stays |
| `ScanReasons.KeysNamed` | gateway/src/core/body.cpp:309-310 | A reason that names keys only when a checked key has just closed, under every configuration: one written with a backslash, one equal to an earlier one of its object, or one after 256 others |
| `SafePoints.StepGood` | provider/src/body_scan.cpp:179-350 | Every byte keeps the invariant on holds and spans, and nothing told below the safe point changes |
| `SafePoints.SafeGrows` | provider/include/provider/body_scan.hpp:54-56 | The safe point never goes back as bytes arrive, and never passes what arrived |
| `SafePoints.SafeOutside` | fuzz/fuzz_body_stream.cpp:156-158 | The safe point is never inside an unfinished checked key, the tracked model value, or a tracked member with its separator |
| `SpanPlaces.MembersMarks` | provider/src/body_scan.cpp:110-175 | The spans told for the root's members are a function of where they stand in the tree |
| `SpliceMarks.ScanSpans` | provider/include/provider/body_scan.hpp:61-72 | A finished scan of an object tells exactly the spans its members have in the tree |
| `SpliceMarks.NoSpans` | provider/src/body_scan.cpp:303-307 | A body that is no object has no spans, and is never taken under a mask |
| `Sorting.SortByOffset` | gateway/src/splice.cpp:97-98 | The in-place insertion sort leaves the same elements in strictly ascending offset |
| `Splicing.RangeSplit` | gateway/src/splice.cpp:69-121 | Two ranges that meet go as one: the spliced bytes of adjoining ranges concatenate |
| `SpliceAppend.AppendMembers` | gateway/src/splice.cpp:39-49 | Writes the text of the policy's members, comma-separated, in order |
| `SpliceAppend.Gather` | gateway/src/splice.cpp:79-96 | Gathers exactly the spans to replace, and whether the root's first member is one |
| `SpliceAppend.CopyAround` | gateway/src/splice.cpp:109-119 | Copies a range around sorted cuts: its bytes with each cut replaced |
| `SpliceAppend.AppendAll` | gateway/src/splice.cpp:78-121 | Appends the per-byte image of the range, the insertion after the root's brace and the trailing spaces |
| `SpliceAppend.AppendModel` | gateway/src/request.cpp:709-721 | The substitution alone appends that same image |
| `SpliceAppend.Append` | gateway/src/splice.cpp:69-121 | For every range that splits no span: appends exactly the specified bytes, whichever path is taken |
| `SpliceStream.RangeEarly` | gateway/src/splice.cpp:67-77 | A range below the safe point, spliced with only the spans known then, goes as the finished scan would send it |
| `SpliceStream.StreamedPrefix` | gateway/src/core/body.cpp:173-182 | Before the last byte arrives, what went is the whole splice cut at the safe point |
| `SpliceStream.StreamedIsWhole` | gateway/src/splice.cpp:69-121 | For every body the scan takes and every partition into arrivals, chunk-wise equals whole-body splice |
| `SpliceStream.WholeLength` | gateway/src/request.hpp:158-216 | The venue gets exactly the client's length plus grow(), whether or not the model was the sentinel |
| `SpliceTree.WeaveText` | gateway/src/splice.cpp:99-119 | The spliced pieces, written after the policy's members, are the text of one member list |
| `SpliceTree.WeavePairs` | gateway/src/request.hpp:182-188 | That list's keys and values are the policy's, then the client's kept ones in order |
| `SpliceResult.HitIs` | gateway/src/request.cpp:703-707 | The model is substituted exactly when the body's model is the sentinel string |
| `SpliceResult.WholeText` | gateway/src/splice.cpp:69-121 | What the venue gets for an object is the text of the spliced tree |
| `SpliceResult.PolicyIs` | gateway/src/splice.cpp:20-46 | The policy's members are service_tier, speed and inference_geo, in this order, each with its own value and only if it is set |
| `SpliceResult.VenueReads` | gateway/src/request.hpp:158-188 | For every object the scan takes, the venue reads one valid JSON object: the policy's members by name, then the client's others in order, only a sentinel model replaced |
| `SpliceResult.FieldsRead` | gateway/src/splice.cpp:20-46 | Each of the three by name: set, the venue reads its value and no other; left alone and not sent, it reads none |
| `SpliceResult.VenueReadsOther` | gateway/src/request.cpp:709-721 | Any other JSON text goes as it is, with the declared spaces after it |
| `HeldRewrite.FindMember` | provider/include/provider/json.hpp:362-368 | Finds the first member with the key, or none |
| `HeldRewrite.GatherEdits` | provider/src/translate_body.cpp:256-281 | Refuses exactly a missing model or a member set that is no string; else gathers every edit once, the insertion's text, and the service tier replaced |
| `HeldRewrite.CopyEdits` | provider/src/translate_body.cpp:307-319 | Copies the body with the edits applied in order |
| `HeldText.Rewrite` | provider/src/translate_body.cpp:283-320 | Writes the text of the tree with the overrides set and the absent members inserted |
| `JsonTree.OneValue` | provider/include/provider/json.hpp:663-679 | A value's text, followed by what can follow one, is that of one value only |
| `JsonTree.OneTree` | provider/include/provider/json.hpp:799-838 | The grammar is unambiguous: two trees with one text are one tree |
| `JsonEscapes.SpellingReads` | provider/include/provider/json.hpp:864-935 | However each character of a text is spelt, as its bytes, with a letter, with four hex digits of either case or as a surrogate pair, what is read decodes from UTF-8 to the text |
| `JsonEscapes.SameReading` | provider/include/provider/json.hpp:864-935 | Two spellings read the same if and only if they spell one text |
| `JsonEscapes.LoneReads` | provider/include/provider/json.hpp:899-917 | A surrogate on its own reads as the replacement character |
| `JsonEscapes.UniqueTexts` | provider/include/provider/json.hpp:463-490 | Keys are unique if and only if they spell different texts, however each is spelt |
| `JsonKeys.KeysUnique` | provider/include/provider/json.hpp:463-490 | Pair by pair or sorted, escaped or not: true exactly when no two keys read the same |
| `JsonKeys.KeysFresh` | provider/include/provider/json.hpp:439-461 | The filter of 64 bits in front of it never changes the answer |
| `JsonParser.ParsedOnce` | provider/include/provider/json.hpp:799-838 | A text has one parse: its tree within the limits with every object's keys apart, or none |
| `JsonParser.ParsedIs` | provider/include/provider/json.hpp:799-838 | Of a text whose tree is known, that tree, or none exactly when it is too deep, has too many values, or some object repeats a key |
| `HeldText.ApplyOverrides` | provider/src/translate_body.cpp:235-321 | The body itself without overrides; else refused exactly when the values are not clean, the parser takes no object, or its tree cannot take them, and else the text of that tree; with the service tier that was replaced |
| `HeldAgrees.HeldTakes` | provider/src/translate_body.cpp:235-290 | On every object the scan takes, with overrides: the held rewrite is done if and only if the values are clean, the body has at most 2^20 values and no object in it, at any depth, names a key twice; without any it always is |
| `HeldAgrees.HeldReads` | provider/src/translate_body.cpp:260-320 | Whatever the overrides, what is written holds the members set and not sent, by name, then the client's in order, each with the value set for its name or its own |
| `HeldAgrees.RefusedWhen` | provider/src/translate_body.cpp:262-291 | The tree cannot take them exactly if a model is set and not sent, a member set by name is no string, or one is inserted beside a key written with an escape |
| `HeldAgrees.StreamAgreesWithHeld` | provider/src/translate_body.cpp:235-321 | Whenever it is done, what it returns is the text of one JSON object whose keys and values are, as a multiset, those of what the stream sends: the policy's by name and the client's others |
| `HeldAgrees.NestedRepeat` | provider/src/translate_body.cpp:248-249 | Inputs where it is not: two keys below the root that spell one text, however written, are taken by the scan and the stream and refused by the held rewrite; with any two others it is done |
| `UploadFacts.TidyAt` | provider/src/body_scan.cpp:110-131 | At every moment of a scan the spans are ordered, at most three, closed, and end by the safe point |
| `UploadFacts.StagedStays` | gateway/src/core/body.cpp:149-182 | Bytes already staged are unchanged by what arrives later, and no later span covers where they end |
| `UploadFacts.StagedShort` | gateway/src/request.hpp:158-163 | Short of the body's last byte, what is staged is shorter than the declared length |
| `UploadFacts.StagedFull` | gateway/src/request.hpp:158-163 | At the last byte it is exactly the declared length |
| `Upload.ScanTells` | provider/src/body_scan.cpp:95-107 | The scan object's spans and safe point are those of the bytes it has read |
| `Upload.Upload.ShortOfDeclared` | gateway/src/core/body.cpp:96-104 | In every valid state short of the last byte, the venue holds fewer bytes than it was told |
| `Upload.Upload.FullAtLast` | gateway/src/core/body.cpp:239-252 | Once the last byte went, the venue holds exactly as many as it was told |
| `Upload.Upload.constructor` | gateway/src/core/body.cpp:61-88 | A body admitted before its last byte streams or parks, nothing sent; it takes a slot exactly if it streams |
| `Upload.Upload.StopBody` | gateway/src/core/body.cpp:90-95 | Frees the slot guarded by the upload's own flag: asked twice, it is given back once, and what the others hold is unchanged |
| `Upload.Upload.CutBody` | gateway/src/core/body.cpp:106-114 | A venue reset had fewer bytes than it was told, and the slot is free |
| `Upload.Upload.EndBodyStream` | gateway/src/core/body.cpp:315-329 | Takes the request off the buffer, and owes as discard exactly what has not arrived of it |
| `Upload.Upload.RefuseBody` | gateway/src/core/body.cpp:302-311 | A refused body leaves no venue, the last one reset short |
| `Upload.Upload.ForwardParts` | gateway/src/core/body.cpp:235-252 | A first attempt or a resend stages the image of the first body_sent bytes |
| `Upload.Upload.ForwardBody` | gateway/src/core/body.cpp:173-182 | Staging the next safe bytes makes the stage the image of the longer prefix |
| `Upload.Upload.Dispatch` | gateway/src/core/client.cpp:497-510 | A new attempt stages everything safe; a refusal by the scan stages nothing |
| `Upload.Upload.EndUpload` | gateway/src/core/client.cpp:296-378 | The last byte may go exactly when no head decision refuses or redoes the body; a refusal takes the request off the buffer, and one to be sent again, or parked, stays in it whole |
| `Upload.Upload.PumpBody` | gateway/src/core/body.cpp:149-171 | Keeps the whole invariant; body_sent never shrinks and reaches the safe point; late or refused bytes never go; a venue given up here is reset and was short; the request leaves the buffer exactly when it is refused, and goes on streaming or parked exactly while it is in time, not refused and not whole |
| `Upload.Upload.Resend` | gateway/src/core/upstream.cpp:209-224 | A resend stages the same bytes again |
| `Upload.Upload.LoseVenue` | gateway/src/core/upstream.cpp:425-430 | A venue that failed is given up: recorded as reset, short of what it was told, exactly while the body is still going; one that had all of it is not recorded |
| `Upload.Upload.Park` | gateway/src/core/upstream.cpp:441-452 | A body parked has no venue and no slot, and goes on as it was |
| `Upload.Upload.ResponseBegins` | gateway/src/core/body.cpp:315-329 | A response ends the upload with what went, and drops the rest |
| `Upload.Upload.Forget` | gateway/src/core/client.cpp:621-628 | A client gone in any state leaves no slot held and no venue, one still being sent to reset short |
| `Upload.Upload.DropDiscard` | gateway/src/core/body.cpp:331-342 | Bytes of a request that is over go as they arrive, none after them; the deadline does not come forward |
| `Upload.Upload.ClientBytes` | gateway/src/core/client.cpp:68-75 | In every state and however cut: the invariant holds, and once the request is over exactly its total length was removed before the next one's first byte |
| `Deadlines.DeadlineGrows` | gateway/src/core/body.cpp:118-125 | More bytes in never bring the deadline forward |
| `Deadlines.SteadyUploadInTime` | gateway/src/core/body.cpp:116-125 | With the total limit off, in time if and only if past the grace the minimum rate was averaged |
| `Deadlines.UploadInTime` | gateway/src/core/body.cpp:118-125 | With both limits on, in time if and only if both are met |
| `Engine.Engine.constructor` | gateway/src/engine.hpp:351-351 | No uploads, and a count of none streaming |
| `Engine.Engine.Apart` | gateway/src/core/body.cpp:90-95 | Of every upload, the slots it does not hold are exactly those of the others streaming |
| `Engine.Engine.Together` | gateway/src/core/body.cpp:90-95 | If the count is right of the others it is right of all |
| `Engine.Engine.Admit` | gateway/src/core/body.cpp:37-88 | Under the cap a body that streams makes the count one more, a parked one not; the count stays the number of uploads streaming and within the cap |
| `Engine.Engine.ClientBytes` | gateway/src/core/client.cpp:68-75 | Whatever a client's bytes lead to, the count stays the number of uploads streaming and no other upload is touched |
| `Engine.Engine.Dispatch` | gateway/src/core/client.cpp:497-510 | An attempt keeps the count the number of uploads streaming, and gives the slot back when the scan refuses |
| `Engine.Engine.Park` | gateway/src/core/upstream.cpp:441-452 | Parking gives the slot back, and the others hold theirs |
| `Engine.Engine.LoseVenue` | gateway/src/core/upstream.cpp:425-430 | A venue lost leaves every slot as it is held: the upload keeps its own for the next attempt |
| `Engine.Engine.Resend` | gateway/src/core/upstream.cpp:209-224 | A resend keeps every slot as it is held |
| `Engine.Engine.ResponseBegins` | gateway/src/core/body.cpp:315-329 | A response before the body's end gives the slot back, if it was still held |
| `Engine.Engine.Forget` | gateway/src/core/client.cpp:621-628 | A client gone in any state: exactly its own slot is free |
| `JsonScan.CloseIsEvenQuote` | provider/src/json_scan.hpp:29-46 | For every text, the first quote behind an even run of backslashes is the one a forward escape scan finds |
| `JsonScan.StringClose` | provider/src/json_scan.hpp:31-46 | Finds the closing quote a forward scan of the escapes does, for every text |
| `JsonScan.SkipValue` | provider/src/json_scan.hpp:49-80 | Computes where a value ends by quotes, nesting or the next structural byte |
| `JsonScan.SkipsValue` | provider/src/json_scan.hpp:49-80 | On the text of any value it ends exactly where the grammar does |
| `JsonWalk.ForEachMember` | provider/src/json_scan.hpp:85-110 | On the text of an object, shows exactly its members, raw, in order, until told to stop |
| `JsonWalk.FirstMember` | provider/src/json_scan.hpp:113-122 | The text of the first member with the key, or nothing |
| `JsonWalk.ModelOfBody` | provider/src/translate_body.cpp:126-129 | On an object's text, its first model if that is a string without escapes |
| `JsonWalk.ModelReadIsModelSpliced` | gateway/src/request.cpp:703-707 | On every object the scan takes, model_of reads the sentinel exactly when the splice substitutes it |
| `SseLines.Pieces` | provider/src/sse.cpp:78-134 | Any two pieces read as the whole, a cut between CR and LF included |
| `SseLines.ReadBlock` | provider/src/sse.cpp:58-74 | Lines up to a blank one make one event: their data values joined by LF, if there are any |
| `SseLines.WrittenReads` | provider/src/sse.cpp:58-134 | Events written a data line for each of their lines read as those lines joined |
| `SseLines.EventsAreRead` | provider/src/sse.cpp:78-134 | Unless the event cap trips, the byte-wise reading gives the events of the plain list of lines |
| `SseLines.EventsBegin` | provider/src/sse.cpp:58-134 | Even past the event cap, the events read are the first of the plain list's |
| `SseLines.SpelledReadsBack` | provider/src/sse.cpp:88-109 | Lines written with any terminators read back the same if and only if no CR and blank line's LF fall together |
| `SseLines.OneEnding` | provider/src/sse.cpp:88-109 | Lines all ended by LF, all by CR or all by CRLF are never ambiguous in that way |
| `SseLines.SpellingsAgree` | provider/src/sse.cpp:88-109 | LF, CR and CRLF spellings of one stream give the same events |
| `SseReader.SseFrameReader.AddDataLine` | provider/src/sse.cpp:58-74 | Viewed in place or copied, the event's data is its values joined by LF; false past the cap |
| `SseReader.SseFrameReader.Feed` | provider/src/sse.cpp:51-56 | The next bytes, with the carried line and event kept |
| `SseReader.SseFrameReader.TakeLine` | provider/src/sse.cpp:103-131 | One finished line has the byte-wise reader's effect |
| `SseReader.SseFrameReader.Next` | provider/src/sse.cpp:78-134 | Events, the state left and both caps are those of the byte-wise reading of what was fed |
| `SseReader.ReadParts` | provider/src/sse.cpp:51-134 | However a stream is cut, the events are those of its lines; it fails exactly when an event or an unfinished line is past its cap at the end of an arrival |
| `SseReader.LineCapDependsOnCut` | provider/src/sse.cpp:78-134 | Every line past its cap and short of the event cap trips it when an arrival ends before the terminator, and does not when it comes with it |
| `Translator.AppendSanitized` | provider/src/openai_common.hpp:28-43 | Copying clean runs whole writes each control byte escaped and every other byte as it is |
| `Translator.SanitizedSum` | provider/src/openai_common.hpp:28-43 | Escaping fragments one by one is escaping their concatenation |
| `SanitizedText.SanitizedReads` | provider/src/openai_common.hpp:28-43 | A span without escapes, whatever bytes it holds, reads back as itself |
| `SanitizedText.SanitizedClean` | provider/src/openai_common.hpp:28-43 | No control byte goes out |
| `Translator.StepAgrees` | provider/src/sse.cpp:242-398 | Every event moves an OpenAI client of the chunks and an Anthropic client of the events alike |
| `Translator.SameReply` | provider/src/sse.cpp:304-440 | For every run of events, reopened block indices included, both clients assemble the same text and calls; ordinals count from 0 and arguments only go to an opened call |
| `TranslatorOrder.TellNext` | provider/src/sse.cpp:242-398 | Every event keeps the order of chunks and what the state says went |
| `TranslatorOrder.RunOrdered` | provider/src/sse.cpp:185-474 | Role once and before the reply, one finish, one [DONE] last with a finish before it, usage exactly when asked and directly before it; no end without one stated; every finish reason stated or the default |
| `TranslatorOrder.EndIsFinal` | provider/src/sse.cpp:442-446 | Once failed or done, nothing more is said |
| `TranslatorEnd.FinishIs` | provider/src/sse.cpp:242-474 | For every run of events and its EOF: it fails exactly if the first event to end it is an error, too long an echo or a reason that names a failure; a finish chunk goes exactly if an event states a reason or ends the message while it lives, and its reason is the one the first of these states, or the default for the calls made if it states none; EOF is well exactly if the message ended or a reason was stated |
| `SseTranslator.AnthropicToOpenAiSse.OpenCall` | provider/src/sse.cpp:377-385 | Growing the vector and reopening an index changes only that index |
| `SseTranslator.AnthropicToOpenAiSse.OrdinalFor` | provider/src/sse.cpp:402-407 | The call opened last at the block index, or none |
| `SseTranslator.AnthropicToOpenAiSse.Dispatch` | provider/src/sse.cpp:242-398 | One event changes the object and appends chunks as specified |
| `SseTranslator.AnthropicToOpenAiSse.Feed` | provider/src/sse.cpp:442-457 | The chunks of the events in these bytes, up to the terminal one; past a cap the stream has failed |
| `SseTranslator.AnthropicToOpenAiSse.FinishStream` | provider/src/sse.cpp:462-474 | EOF ends the stream well exactly when a stop reason or the end was stated, and writes nothing otherwise |
| `SseTranslator.TranslateParts` | provider/src/sse.cpp:442-474 | However the venue's stream is cut: unless a cap trips before the terminal event, the chunks are those of its events read line by line and EOF decides how it ended; if one does, the stream has failed with the chunks of the events until then |
| `Chunked.SizeLine` | net/include/net/http.hpp:584-602 | A size line is taken exactly when it is hex digits within the cap, then blanks and an extension or nothing |
| `Chunked.Pieces` | net/include/net/http.hpp:508-569 | Any two pieces decode as the whole: state, output and bytes taken |
| `Chunked.ChunkDecoder.Feed` | net/include/net/http.hpp:508-569 | State and output are the automaton's on the input; the count of bytes consumed is too, and stays where it was if the feed fails |
| `Chunked.DecodeParts` | net/include/net/http.hpp:503-608 | Fed in any pieces, the decoder ends as on the whole; its count is the whole's, or after a failure what the pieces before the failing one took |
| `Chunked.CountDiffers` | net/include/net/http.hpp:508-569 | For every input and cut, the counts of one piece and of two differ if and only if the first holds a byte and decoding fails in the second |
| `Chunked.CountDependsOnCut` | net/include/net/http.hpp:508-569 | An input where that count depends on the cut: a blank size line counts 0 fed whole and 1 cut inside its CRLF |
| `ChunkFrames.ChunkWrap` | gateway/src/stream.hpp:56-67 | Wraps what was appended in one frame; nothing appended, nothing written |
| `ChunkFrames.FramedReadsBack` | net/include/net/http.hpp:503-608 | Payloads framed and terminated decode to their concatenation, done exactly at the last byte, none of what follows taken |
| `ChunkFrames.FramesRefused` | net/include/net/http.hpp:584-602 | One payload past the decoder's cap among the frames, and it fails |
| `ChunkFrames.WriteStream` | gateway/src/stream.hpp:56-73 | Any payloads appended, wrapped one by one and terminated: what was written decodes to their concatenation, done at its last byte, exactly when each is within the decoder's cap |
| `Framer.TerminatorStays` | net/include/net/http.hpp:306-309 | A head's end once found stays; one not found yet lies past what was buffered |
| `Framer.WalkHead` | net/include/net/http.hpp:230-247 | The header lines give one length or a refusal |
| `Framer.ParseRequest` | net/include/net/http.hpp:304-360 | Computes the frame of the buffer |
| `Framer.RequestStable` | net/include/net/http.hpp:304-360 | Once a request is complete or refused, every longer buffer gives the same answer and lengths |
| `Framer.RequestNeedsExactly` | net/include/net/http.hpp:356-359 | With the head in, the answer turns complete exactly when the stated length has arrived |
| `Framer.LengthStated` | net/include/net/http.hpp:225-247 | Whatever its first line, a head that states a length in decimal states that length |
| `Framer.RequestReads` | net/include/net/http.hpp:304-360 | A request written with its length in decimal is framed exactly, whatever follows it |
| `Framer.ResponseStable` | net/include/net/http.hpp:643-687 | Once a response is whole or refused, every longer buffer gives the same answer |
| `Framer.ResponseDecoder.FrameChunked` | net/include/net/http.hpp:662-675 | Fed only what is new, the answer is that of decoding every byte at once |
| `Framer.ResponseDecoder.ParseResponse` | net/include/net/http.hpp:643-687 | On a buffer that has grown since the last call with this decoder, the answer is that of one call on the whole of it |
| `Framer.ReadResponse` | net/include/net/http.hpp:643-687 | Over any run of growing prefixes with one decoder, every answer is that of one call on the prefix, all but the last ask for more, and the last is that of the whole response |
| `Resolver.WaitNext` | gateway/src/resolve.cpp:35-41 | The back-off after the k-th failure in a row is min(2^(k-1), 30) seconds |
| `Resolver.StepKeeps` | gateway/src/resolve.cpp:85-195 | Every step of the loop or the resolver keeps the counting, locking and timing invariants |
| `Resolver.EveryInterleaving` | gateway/src/resolve.cpp:85-195 | In every reachable state each venue has at most one lookup, the lists fit their capacity, and with the lock free the flag says whether done holds anything |
| `Resolver.PushFits` | gateway/src/resolve.cpp:146-149 | A push never grows the done-list past the capacity reserved |
| `Resolver.LookupsApart` | gateway/src/resolve.cpp:91-92 | Lookups of one venue are at least a second apart, and after k failures wait out the k-th back-off |
| `Resolver.AnswersKept` | gateway/src/resolve.cpp:85-195 | Over every interleaving, the answers found are those applied, in order and unchanged, then those still waiting: none is lost or repeated |
| `Resolver.FailuresRotate` | gateway/src/resolve.cpp:65-75 | Failures in a row walk the whole address list, round and round |
| `Resolver.DialledIs` | gateway/src/resolve.cpp:65-184 | Over every run of failed connects and answers: the list is the last one found, and the address dialled is on it, as many places on, round and round, as connects failed since, from the address in use then, or from the top if it was gone |
| `Resolver.EachDialled` | gateway/src/resolve.cpp:65-75 | In an outage every address listed is dialled, after fewer failures than there are addresses |
| `Fips180.FoldSum` | net/src/sha256.cpp:97-100 | Folding two runs of blocks in turn is folding their concatenation |
| `Fips180Facts.InitialValues` | net/src/sha256.cpp:66-70 | The initial hash values are the first 32 bits of the fractions of the square roots of the first eight primes |
| `Fips180Facts.Roots0` | net/src/sha256_tables.hpp:16-29 | The first eight round constants are the first 32 bits of the fractions of the cube roots of the first eight of the first 64 primes |
| `Fips180Facts.Roots1` | net/src/sha256_tables.hpp:16-29 | The second eight round constants are the first 32 bits of the fractions of the cube roots of the second eight of the first 64 primes |
| `Fips180Facts.Roots2` | net/src/sha256_tables.hpp:16-29 | The third eight round constants are the first 32 bits of the fractions of the cube roots of the third eight of the first 64 primes |
| `Fips180Facts.Roots3` | net/src/sha256_tables.hpp:16-29 | The fourth eight round constants are the first 32 bits of the fractions of the cube roots of the fourth eight of the first 64 primes |
| `Fips180Facts.Roots4` | net/src/sha256_tables.hpp:16-29 | The fifth eight round constants are the first 32 bits of the fractions of the cube roots of the fifth eight of the first 64 primes |
| `Fips180Facts.Roots5` | net/src/sha256_tables.hpp:16-29 | The sixth eight round constants are the first 32 bits of the fractions of the cube roots of the sixth eight of the first 64 primes |
| `Fips180Facts.Roots6` | net/src/sha256_tables.hpp:16-29 | The seventh eight round constants are the first 32 bits of the fractions of the cube roots of the seventh eight of the first 64 primes |
| `Fips180Facts.Roots7` | net/src/sha256_tables.hpp:16-29 | The last eight round constants are the first 32 bits of the fractions of the cube roots of the last eight of the first 64 primes |
| `Fips180Facts.SigmaBits` | net/src/sha256.cpp:29-44 | Where the rotations and shifts of section 4.1.2 take a single bit |
| `Sha256.FillSchedule` | net/src/sha256.cpp:79-82 | Fills the message schedule of FIPS 180-4 section 6.2.2 |
| `Sha256.CompressOne` | net/src/sha256.cpp:77-95 | In place, the compression function of section 6.2.2 |
| `Sha256.CompressBlocks` | net/src/sha256.cpp:97-100 | Folds the compression function over whole blocks |
| `Sha256.Sha256.Update` | net/src/sha256.cpp:118-148 | Any update extends the message: words folded over whole blocks, the rest buffered, the bit count modulo 2^64 |
| `Sha256.Sha256.Pad` | net/src/sha256.cpp:155-164 | The padding loop ends, across a block's end when needed, at exactly the room for the length |
| `Sha256.Sha256.Finish` | net/src/sha256.cpp:150-175 | Returns FIPS 180-4's digest of everything fed, and is as new |
| `Sha256.HashParts` | net/include/net/sha256.hpp:26-34 | However a message is split into updates, the digest is that of the whole |
| `UnitInterval.Decide` | provider/src/translate_anthropic.cpp:154-182 | For every JSON number: whether it lies in [0, 1], unless its exponent was cut at the cap and its leading digit's place lies between what was kept and the whole, and then exactly not; never so under 100000 bytes |
| `UnitInterval.LongMisleads` | provider/src/translate_anthropic.cpp:171-177 | Inputs where it is: a one with more than 100000 zeros and a negative exponent larger still |
| `Picodollars.ScaleUp` | provider/src/json_scan.hpp:229-233 | Exact, or none exactly when the amount does not fit int64 |
| `Picodollars.ScaleDown` | provider/src/json_scan.hpp:234-234 | Digit by digit, the result is the one rounding half up |
| `Picodollars.Picodollars` | provider/src/json_scan.hpp:200-236 | For every text: -1 if it writes no amount, else the first 18 digits that count, scaled by the exponent kept and rounded, -1 exactly when that does not fit int64 |
| `Picodollars.AnswerIs` | provider/src/json_scan.hpp:197-236 | For every amount: the answer is what is due rounded half up, less what the digits dropped round to, if and only if the exponent cut does not misscale it, as it never does at 300 bytes or less; nothing is lost when no digit is dropped or the last one kept is below a picodollar |
| `Picodollars.LongMisscaled` | provider/src/json_scan.hpp:221-228 | Inputs where it does: a one with a thousand zeros or more and a negative exponent larger still, for which nothing is due and something is answered |
| `Picodollars.JsonAmount` | provider/src/json_scan.hpp:197-199 | A JSON number writes the amount it is, and none when it is negative |
| `Picodollars.LastDecimal` | provider/src/json_scan.hpp:197-199 | Six digits of dollars and thirteen decimals are answered a picodollar short exactly when the last decimal is 5 or more |
| `Accounting.Attempts.Add` | provider/src/openai.cpp:25-42 | Running sums that skip what is not stated stay the tokens of the attempts added |
| `Accounting.ReadIterations` | provider/src/openai.cpp:129-162 | Every declined attempt is summed, held at its index, or counted past the cap |
| `Accounting.BillDeclined` | provider/src/openai.cpp:572-588 | Each held attempt is judged once by the category named for it |
| `Accounting.FatesAdd` | provider/src/openai.cpp:572-588 | Billed, unverified and free attempts add up to every attempt |
| `Accounting.FateIs` | provider/src/openai.cpp:572-588 | By its numbers and flags: billed exactly if it gave output, or is among the first four that gave none and its category is named and billed; free exactly if that category is not |
| `Accounting.BilledAdds` | provider/src/openai.cpp:25-42 | What a billed attempt adds: its output, and a prompt of the uncached part and both of the cache's |
| `Accounting.Account` | provider/src/openai.cpp:201-234 | With a fallback, every declined attempt is counted once, and the billed tokens are the billed attempts' |
| `MessageBuilder.AppendText` | provider/src/content.hpp:54-68 | The text of a content field, refused exactly when a part is not text |
| `MessageBuilder.CacheState` | provider/src/content.hpp:41-52 | Refused exactly on a malformed breakpoint; else whether a part with text carries one |
| `MessageBuilder.AppendContent` | provider/src/content.hpp:72-106 | One string, or blocks when a breakpoint needs them, as the structural content |
| `MessageBuilder.AppendCalls` | provider/src/translate_anthropic.cpp:330-344 | One block for each named call with an object for input; refused otherwise |
| `MessageBuilder.AnthropicTurns.CloseResults` | provider/src/translate_anthropic.cpp:289-293 | Closes the open turn of results, brackets balanced |
| `MessageBuilder.AnthropicTurns.PlainTurn` | provider/src/translate_anthropic.cpp:297-303 | A user or assistant turn after those before it |
| `MessageBuilder.AnthropicTurns.ToolResultTurn` | provider/src/translate_anthropic.cpp:305-316 | A result joins the open turn of results, or opens one |
| `MessageBuilder.AnthropicTurns.CallsTurnOf` | provider/src/translate_anthropic.cpp:319-347 | An assistant's text, if any, then its calls |
| `MessageBuilder.AnthropicTurns.Walk` | provider/src/messages.hpp:27-50 | Every message in order makes exactly the structural turns, or the list is refused |
| `MessageRequest.AppendSystem` | provider/src/translate_anthropic.cpp:239-273 | The system and developer texts, hoisted in order and joined, with their last breakpoint |
| `MessageRequest.BuildRequest` | provider/src/translate_anthropic.cpp:384-426 | For every message list: refused whole, or exactly the text of the structural translation |
| `MessageReader.TranslationReads` | provider/src/translate_anthropic.cpp:297-347 | Read back, the turns hold every message's role, text, calls and results, once and in order |
| `MessageReader.SystemReads` | provider/src/translate_anthropic.cpp:239-273 | Read back, the system member is the system messages' texts, joined |
| `MessageJson.RequestIsJson` | provider/src/translate_anthropic.cpp:384-426 | A request that is not refused is one well-formed JSON object |

## Left out

- Sockets, TLS, timers and threads: arrivals, times, confirms and venue failures are inputs; the lock's critical sections are steps.
- The JSON parser with a tree (`provider/include/provider/json.hpp`): its recursive descent and its arena; `JsonParser.Parsed` says which texts it takes and what tree it gives, and `JsonKeys` is its check on keys, with `std::sort` as a function. Its members kept as spans are not modelled.
- Upload.Upload.Dispatch: picking a venue, rebuilding the head and credentials are not modelled; only the body bytes staged and the declared length are.
- Upload.Upload.EndUpload: the policy's confirm and the model capture are inputs with the outcomes the engine acts on; a body dispatched again whole leaves this model.
- Picodollars.Picodollars: the scale is unbounded; the source's `int` holds it for any text under 2 GiB.
- Upload.Upload.Resend: a stale connection is dropped without a reset, so none is recorded.
- Offsets and counts are unbounded: 32-bit body offsets hold for bodies under 4 GiB, which the framer's cap ensures; token sums in the accounting are not wrapped at 64 bits.
- The `created` stamp, ids, model names and token numbers inside emitted chunks, and the chunks' JSON text: chunks are data, with only their raw strings escaped.
- Translator.SameReply: stop reasons arrive already mapped to OpenAI's names; the mapping table is not modelled.
- Framer.ResponseDecoder.ParseResponse: what a response head says is a parameter, any function of the head's bytes; its status line, quota and retry headers are not modelled.
- Framer.ParseRequest: only the headers that decide framing are read; keep-alive, content encoding and the HTTP version do not bear on where a message ends.
- The older framer kept for fuzzing (`fuzz/http_legacy.hpp`): the one in use is modelled instead.
- The SHA-NI path: the scalar rounds are modelled; both are chosen by one function pointer.
- MessageRequest.BuildRequest: the parameters and tools are given as members already translated; unescaping a call's arguments is the parser's part.
- The key tally of a held body (`KeyTally`, `top_level_facts`): it also checks `prompt_cache_options`, so its verdict is not the scan's.
- Hedging, failover choice, pooling, sweeping, logging and statistics: plumbing around the machines above.
- Gemini and Cohere translators and the carry logic of `StreamUsage`: simpler relatives, or caps that would only add side conditions.
