# A verified model of the dashboard's algorithmic cores

The dashboard runs beside a DCS World server: a Rust back end edits the server's configuration files and serves
logs and landing reports, and a React front end plans carrier recoveries and shows the result. This project models
the parts of it that compute something, and proves what they are for. Each file stands for one component.

| file | component |
|---|---|
| `LuaText.dfy`, `LuaLocality.dfy`, `LuaPrinting.dfy` | a reader for the part of Lua 5.1 that `serverSettings.lua` is written in, and the way strings and numbers are printed into it |
| `SettingsLua.dfy`, `SettingsRoundTrip.dfy`, `SavedSettings.dfy` | saving and loading the server settings, and what each key holds afterwards |
| `QueueEdit.dfy`, `QueueLaws.dfy`, `SavedQueue.dfy` | adding and removing missions by splicing one block of the settings text, and the files on which that works |
| `Foothold.dfy`, `FootholdLayout.dfy`, `FootholdMeaning.dfy`, `FootholdLaw.dfy`, `FootholdJson.dfy`, `FootholdFailures.dfy` | the line editor of a nested Lua configuration, what Lua makes of the result, and how the posted JSON values read there |
| `SrsIni.dfy`, `IniFiles.dfy` | reading and updating an INI file |
| `CursorFeed.dfy` | the browser's cursor polling against the server's logs |
| `WindSolver.dfy` | turning the ship into the wind |
| `LsoNotation.dfy`, `NotationTies.dfy`, `NotationMarks.dfy` | the notation of landing comments |
| `PilotGroups.dfy`, `GroupLaws.dfy` | landings grouped by pilot |
| `DeckRoutes.dfy`, `DeckDistances.dfy` | the nearest deck route, and the point at a progress along one |
| `DisplayOrder.dfy`, `NavPrefs.dfy`, `ColumnPrefs.dfy`, `ColumnLaws.dfy` | the order and visibility of navigation pages and table columns, and the sort of a table |
| `RadarBatch.dfy`, `RadarLaws.dfy` | the radar stream gathered into batches |
| `Options.dfy`, `Sequences.dfy` | optional values, and lists without repetition |

Code that loops or updates state is a method, or a class where the original keeps references, and is proved equal
to a function; what the component promises is proved about that function. Where a promise fails on some inputs,
the theorem is an equivalence whose right side says on which.

## Where the code does not do what it promises

Each entry names the theorem that says when, and in brackets a lemma with an input on which it happens.

- A string with a carriage return that no newline follows makes the saved settings unreadable
  (`SettingsRoundTrip.SaveThenLoad` [`LoneReturnIsUnreadable`]).
- A mission that is not a string leaves a gap in the numbering, and Lua stops reading there
  (`SettingsRoundTrip.MissionsComplete` [`MissionsAfterGap`]).
- A mission block that a semicolon, or a blank and a comma, follows is spliced into a file Lua cannot read
  (`QueueEdit.EditedSettings` [`SavedQueue.SemicolonBreaksFile`]), and a closing brace in a queued path makes the next
  edit cut the block short (`QueueEdit.EditedSees` [`SavedQueue.BraceEndsBlock`]).
- A Foothold update makes the whole file unloadable when Lua cannot read what is written: a new key that is a reserved
  word, starts with a digit or ends in a backslash, or a string with a line break or a backslash before its closing
  quote (`FootholdMeaning.SavedLoads`, `FootholdLaw.SavedFileLoads`
  [`FootholdFailures.UnreadableEntryBreaksFile`, `FootholdFailures.BackslashBreaksFile`]).
- A new Foothold key with a readable escape in it is another key for Lua, and a value for the path of a table within a
  table replaces that table with what is in it (`FootholdLaw.SavedFileLaw` [`FootholdFailures.TableIsOverwritten`]); a
  path that is assigned twice keeps its old value (`Foothold.UpdateLaw` [`SecondAssignmentStays`]).
- A Foothold string that holds a backslash or a line break, or stands in braces, does not read back
  (`FootholdMeaning.StringReadsBack`).
- An INI value that makes its line look like a section header is lost, with its key
  (`SrsIni.PutGet`, `SrsIni.TraceLaw`, `SrsIni.HeadersKept` [`KeyBecomesHeader`]), and each posting drops a last
  empty line (`SrsIni.PostTwice` [`SecondPostingDiffers`]).
- A chat log that is empty after a restart goes unnoticed, and the old lines stay
  (`CursorFeed.RestartNoticed` [`StaleLine`]); so does any new log that has reached the cursor when it is asked, and
  what it has after the cursor is then put behind the old lines (`CursorFeed.RestartUnnoticed`).
- The ship's top speed can hold back an "optimal" speed, and then the wind is not straight down the deck
  (`WindSolver.OptimalIsExact`, `WindSolver.OptimalUnclamped` [`OptimalMissed`]).
- The regime of the slowest speed gives up on targets that the ship reaches exactly at another heading and speed
  (`WindSolver.ReachableIs` [`VminMissed`]).
- Of several wires in one comment, the last is kept (`LsoNotation.NotationHoldsItems` [`FirstWireIsLost`]).
- Showing a page after asking to hide one that was hidden already shows it
  (`NavPrefs.HideThenShow` [`ShowingReveals`]).

## Model

| member | source | states |
|---|---|---|
| `LuaPrinting.EscapeInOnePass` | rust-web-dashboard/src/settings_lua.rs:329-333 | the four whole-text replacements, in the order the code makes them, are one escape of each character of the CRLF-normalised text |
| `LuaPrinting.ReadEscapedString` | rust-web-dashboard/src/settings_lua.rs:326-333 | a printed string reads back, under Lua 5.1 lexing, as itself with CRLF made LF, exactly when it holds no lone carriage return; otherwise it cannot be read |
| `LuaPrinting.ReadEscapedPath` | rust-web-dashboard/src/settings_lua.rs:261-265 | a mission path, in which only the backslash is escaped, reads back exactly when it holds no quote and no line break |
| `LuaPrinting.ReadPlainKey` | rust-web-dashboard/src/settings_lua.rs:279-292 | a key printed without escapes reads back when it holds no quote, backslash or line break |
| `LuaPrinting.ReadIntText` | rust-web-dashboard/src/settings_lua.rs:371-379 | a printed whole number reads back, whatever follows that is no part of a number |
| `SettingsLua.SerializeSettings` | rust-web-dashboard/src/settings_lua.rs:240-273 | the pushes of the serializer build exactly the text that the round trip below is about; what the text of each key loads as is said in `SavedSettings`, and one file in full by `ExampleText` |
| `SettingsLua.PrintTopLevel` | rust-web-dashboard/src/settings_lua.rs:243-249 | the loop over the top-level entries, which skips the two block keys |
| `SettingsLua.PrintAdvancedBlock` | rust-web-dashboard/src/settings_lua.rs:251-257 | the advanced block, present exactly when the payload has an object for it |
| `SettingsLua.PrintMissionBlock` | rust-web-dashboard/src/settings_lua.rs:259-268 | the mission block, numbered by position and not by count of strings |
| `SettingsRoundTrip.ReadSettingsText` | rust-web-dashboard/src/settings_lua.rs:240-298 | Lua reads from the saved text exactly the fields of the payload, token by token, or nothing when a string holds a lone carriage return |
| `SettingsRoundTrip.SettingsOfPayload` | rust-web-dashboard/src/settings_lua.rs:75-153 | the loader makes of those fields the coerced payload: scalars, the advanced table and the mission sequence |
| `SettingsRoundTrip.SaveThenLoad` | rust-web-dashboard/src/settings_lua.rs:60-153 | print/read inversion: loading a saved payload gives the type-coerced payload, with CRLF normalised, if and only if no printed string holds a lone carriage return; what the coercion makes of each key is said by the laws of `SavedSettings` |
| `SettingsRoundTrip.MissionsComplete` | rust-web-dashboard/src/settings_lua.rs:261-266 | all missions come back if and only if no string follows an item that is not one |
| `SavedSettings.SavedSwitch` | rust-web-dashboard/src/settings_lua.rs:285-388 | after save and load each of the seven switches, spelled out, holds true if and only if it was posted as true or as the text `true`, and else false |
| `SavedSettings.SavedCount` | rust-web-dashboard/src/settings_lua.rs:283-379 | each of the four counts holds the number, 1 or 0 for a truth value, the whole number a text stands for, and nothing for anything else |
| `SavedSettings.SavedText` | rust-web-dashboard/src/settings_lua.rs:277-344 | each of the four texts holds the text of the value: of null, truth values and numbers too, and without the carriage returns before newlines |
| `SavedSettings.SavedOther` | rust-web-dashboard/src/settings_lua.rs:287-298 | any other key holds the truth value or number it was posted with, and else the text of the value |
| `SavedSettings.NotSaved` | rust-web-dashboard/src/settings_lua.rs:243-249 | a key that was not posted is not there |
| `SavedSettings.SavedOption` | rust-web-dashboard/src/settings_lua.rs:300-324 | each advanced option holds its truth value or number, or what its text stands for, the words `true` and `false` included; null is no option |
| `SavedSettings.NoOption` | rust-web-dashboard/src/settings_lua.rs:251-257 | an option that was not posted is not there |
| `SavedSettings.SavedMissions` | rust-web-dashboard/src/settings_lua.rs:259-268 | the missions are the strings before the first item that is not one, in order |
| `SavedSettings.ExampleText` | rust-web-dashboard/src/settings_lua.rs:240-298 | one saved file, to the letter |
| `QueueEdit.SettingsFile.MutateQueue` | rust-web-dashboard/src/settings_lua.rs:394-432 | one request: the file becomes the spliced text, or stays as it was when it cannot be read or has no block; what that does to the missions is said in `QueueLaws` |
| `QueueEdit.RemoveFound` | rust-web-dashboard/src/settings_lua.rs:409-413 | finding the position and removing there takes out the first occurrence and nothing else |
| `QueueEdit.PrintQueueBlock` | rust-web-dashboard/src/settings_lua.rs:418-423 | the replacement block printed from the queue |
| `QueueEdit.OutsideUnchanged` | rust-web-dashboard/src/settings_lua.rs:445-449 | the text before the block and the text after it are kept character by character |
| `QueueEdit.EditedFile` | rust-web-dashboard/src/settings_lua.rs:436-450 | the spliced file can be read if and only if the block was followed by a comma or closed the table, and then its mission list is the queue and its other fields are the old ones |
| `QueueEdit.EditedSees` | rust-web-dashboard/src/settings_lua.rs:437-444 | after a readable edit the textual search finds the block Lua reads if and only if no queued path holds a closing brace |
| `QueueEdit.EditedSettings` | rust-web-dashboard/src/settings_lua.rs:394-450 | loading after an edit: the new queue and all other settings unchanged, or nothing, exactly as above |
| `QueueEdit.RequestOnReady` | rust-web-dashboard/src/settings_lua.rs:394-432 | one request on a ready file succeeds and leaves a ready file whose missions are those that `QueueLaws` states, adding at the end and removing the first |
| `QueueEdit.RunRefinesList` | rust-web-dashboard/src/settings_lua.rs:394-450 | whole-run refinement: any run of requests with clean paths acts on a ready file as on a plain list, keeping all other settings and all text outside the block; what one request does to the list, and a run of additions, is said in `QueueLaws` without that list operation |
| `QueueEdit.AddTwice` | rust-web-dashboard/src/settings_lua.rs:403-407 | adding is idempotent, to the very text |
| `QueueEdit.AddThenRemove` | rust-web-dashboard/src/settings_lua.rs:403-413 | removing a mission after adding it, when it was absent, restores the list and all settings |
| `QueueLaws.AddAppends` | rust-web-dashboard/src/settings_lua.rs:403-407 | adding an absent mission to a ready file loads as the old missions followed by it, all other settings as before |
| `QueueLaws.AddsAppend` | rust-web-dashboard/src/settings_lua.rs:394-432 | a run of additions of different absent missions puts them at the end in that order |
| `QueueLaws.AddPresent` | rust-web-dashboard/src/settings_lua.rs:404-406 | adding a queued mission leaves the text |
| `QueueLaws.RemoveTakesFirst` | rust-web-dashboard/src/settings_lua.rs:409-413 | removing loads as the missions without the first occurrence, the rest in order |
| `QueueLaws.RemoveAbsent` | rust-web-dashboard/src/settings_lua.rs:409-413 | removing an absent mission leaves the missions |
| `QueueLaws.NotEdited` | rust-web-dashboard/src/settings_lua.rs:394-444 | a file that cannot be loaded is not edited, and neither is one in which the key of the block does not occur, unless the mission to add is queued |
| `SavedQueue.FoundInSaved` | rust-web-dashboard/src/settings_lua.rs:240-273 | in the printed file the textual search stops at the mission block: no string, key or comment before it holds the searched text |
| `SavedQueue.SavedIsReady` | rust-web-dashboard/src/settings_lua.rs:240-450 | a saved payload with a mission array whose strings are clean paths, and no advanced option called `missionList`, is ready for edits; its queue is the missions up to the first item that is not a string |
| `SavedQueue.SaveEditLoad` | rust-web-dashboard/src/settings_lua.rs:60-450 | saving such a payload, any run of queue edits and loading: the queue is that list after the same run, every other setting the coerced payload's |
| `Foothold.OnlyNullDeletes` | rust-web-dashboard/src/foothold.rs:411-427 | no JSON value but null is taken for the word that asks for deletion; what each value is written as reads back by `BooleanReads`, `NumberReads` and `StringReads` |
| `FootholdJson.ConvertUpdates` | rust-web-dashboard/src/foothold.rs:409-427 | the loop that turns the posted values into texts keeps them in order and passes over nested ones |
| `FootholdJson.BooleanReads` | rust-web-dashboard/src/foothold.rs:411-427 | the text of a truth value is read by Lua as that truth value |
| `FootholdJson.NumberReads` | rust-web-dashboard/src/foothold.rs:411-427 | the text of a whole number is read by Lua as that number |
| `FootholdJson.StringReads` | rust-web-dashboard/src/foothold.rs:414-421 | the text of a string without backslashes and line breaks, not in braces, is read by Lua as that string |
| `Foothold.RewriteLines` | rust-web-dashboard/src/foothold.rs:436-496 | the loop over the lines with its path stack and its shrinking updates, in place, equals the rewriting function |
| `Foothold.NewEntriesSet` | rust-web-dashboard/src/foothold.rs:441-466 | the entries written before a closing brace set exactly the pending paths directly below that table, and no others |
| `Foothold.RewriteStep` | rust-web-dashboard/src/foothold.rs:436-496 | what one line keeps, for any path: the path stack in step with the reading, and the value of the path as far as it has been decided |
| `Foothold.UpdateLaw` | rust-web-dashboard/src/foothold.rs:402-504 | for any file and any path, the last value that the lines assign to the path as the editor reads their keys: without an update the old one; assigned once, the new one or none; never assigned, added exactly when the file closes a table that can hold it; assigned more than once, the old one |
| `FootholdLaw.LuaReadsDotted` | rust-web-dashboard/src/foothold.rs:226-272 | on a tidy file the value Lua leaves at a path, where assigning a key replaces all that was below it, is the last value assigned to its dotted form |
| `FootholdMeaning.NestingUnchanged` | rust-web-dashboard/src/foothold.rs:436-500 | any update of any file opens and closes the same tables in the same order |
| `FootholdLayout.UntouchedStays` | rust-web-dashboard/src/foothold.rs:436-500 | every line without an update, such as a comment, a table's start or end, or a value that is not posted, is in the saved file as it was and in its place among the others, whatever is updated |
| `FootholdLayout.BlankLines` | rust-web-dashboard/src/foothold.rs:497-504 | the empty lines of the saved file: its own and one for each deleted value, or none if it had none |
| `FootholdMeaning.SavedLoads` | rust-web-dashboard/src/foothold.rs:436-500 | for any file: the saved file loads if and only if the braces match, every line that stays can be read, and no update writes a key or a value that cannot, as a new entry or in the place of another value; keys in brackets and strings are judged by the Lua lexing of the very text that is written |
| `FootholdMeaning.NewKeyReads` | rust-web-dashboard/src/foothold.rs:449-455 | a new entry with a readable value can be read exactly when its key, if it is of word characters, does not start with a digit and is none of the reserved words of Lua 5.1, spelled out, and otherwise ends at the quote put after it |
| `FootholdLaw.SavedFileLoads` | rust-web-dashboard/src/foothold.rs:436-500 | the same on a tidy file, as a condition a caller can check: each value for an unassigned direct entry of a table of the file makes a readable line, and each value for an assigned path is readable |
| `FootholdFailures.UnreadableEntryBreaksFile` | rust-web-dashboard/src/foothold.rs:441-466 | a family of files that load and, after a new entry whose key or value Lua cannot read, do not |
| `FootholdFailures.BackslashBreaksFile` | rust-web-dashboard/src/foothold.rs:414-490 | a setting whose new string ends in a backslash makes a file that loaded unloadable |
| `FootholdMeaning.RewrittenOnce` | rust-web-dashboard/src/foothold.rs:436-496 | the invariant behind it: at any line, the new lines so far and those still to come declare a path at most once together, since a new entry goes in once, and only where nothing assigned it |
| `FootholdLaw.SavedTidy` | rust-web-dashboard/src/foothold.rs:436-500 | when the saved file loads, it is tidy again if and only if no value is written over a table within a table and no new key holds a backslash |
| `FootholdLaw.SavedValue` | rust-web-dashboard/src/foothold.rs:402-504 | the value Lua leaves at any path after a save that loads, keys without escapes: none below a value written over a table, and otherwise what the path's own update makes of it |
| `FootholdLaw.SavedFileLaw` | rust-web-dashboard/src/foothold.rs:402-504 | the lens law as Lua reads the file, for every save after which it loads: every path is replaced, deleted, added exactly when its table exists, or unchanged, if and only if no new key holds a backslash and nothing has or gets a value below one that is written over a table within a table |
| `FootholdJson.SavedJson` | rust-web-dashboard/src/foothold.rs:402-504 | the same law in JSON values: after a save a path that was assigned or can be added reads as the truth value, whole number or string posted for it; null leaves none, and a nested value or none posted leaves what was there |
| `FootholdLaw.RunOfSaves` | rust-web-dashboard/src/foothold.rs:402-504 | over any run of saves: the file loads and is tidy all along if and only if each save fits the file it finds, and then the run acts on each path by itself and keeps the nesting |
| `FootholdFailures.TableIsOverwritten` | rust-web-dashboard/src/foothold.rs:441-466 | a family of inputs that fail: a value for the path of a table within a table replaces the table, and the value below it is gone |
| `FootholdMeaning.StringReadsBack` | rust-web-dashboard/src/foothold.rs:414-421 | any string value reads back as itself if and only if it does not stand in braces and holds no backslash and no line break |
| `SrsIni.ReadSettings` | rust-web-dashboard/src/routes/srs.rs:44-81 | the reading loop computes the section map; which sections, keys and values that map holds is said by `IniFiles.PrintRead` |
| `SrsIni.WriteSettings` | rust-web-dashboard/src/routes/srs.rs:103-146 | the writing loop computes the posted text; which lines change is said by `IniFiles.PostOne` |
| `IniFiles.HeaderReads` | rust-web-dashboard/src/routes/srs.rs:52-58 | a name in brackets, with any blanks around and within them, is the header of the section of that name without the brackets and blanks |
| `IniFiles.NoteReads` | rust-web-dashboard/src/routes/srs.rs:48-51 | a line of blanks, or with a semicolon or number sign after them, is passed over |
| `IniFiles.UnreadReads` | rust-web-dashboard/src/routes/srs.rs:59 | a line without an equals sign that is none of these sets nothing |
| `IniFiles.PrintRead` | rust-web-dashboard/src/routes/srs.rs:44-81 | print/read law: a file printed from rows under `General Settings` and a list of sections with rows reads back as exactly those sections, keys and values |
| `IniFiles.PostOne` | rust-web-dashboard/src/routes/srs.rs:103-146 | posting one key of one section to such a file writes the new text into exactly the rows of that key in that section |
| `SrsIni.LinesOfJoined` | rust-web-dashboard/src/routes/srs.rs:103-146 | splitting a joined file into lines gives the lines back but for a last empty one |
| `SrsIni.RewrittenLine` | rust-web-dashboard/src/routes/srs.rs:125-137 | a rewritten line reads as its key with the trimmed new text, if and only if it is not mistaken for a section header |
| `SrsIni.PutGet` | rust-web-dashboard/src/routes/srs.rs:44-146 | put then get: for single-line values, reading after posting is the old reading overridden on keys present in both, with duplicate sections and keys, if and only if no new text makes its line look like a section header |
| `SrsIni.PostTwice` | rust-web-dashboard/src/routes/srs.rs:103-146 | for single-line values, posting is idempotent if and only if the file does not end in an empty line after another line and no line of the posted text has yet another new text under a header that posting made; without such a header none has |
| `SrsIni.TraceLaw` | rust-web-dashboard/src/routes/srs.rs:103-146 | the keys, each with its section and its new or old value, keep their places and order if and only if no new text makes a line look like a header; for single-line values that holds of the posted text itself |
| `SrsIni.HeadersKept` | rust-web-dashboard/src/routes/srs.rs:103-146 | the section headers of the posted text are those of the file, in order, under exactly the same condition |
| `SrsIni.LinesKept` | rust-web-dashboard/src/routes/srs.rs:103-146 | every comment, header, unread line and entry without a new text is the same line of the posted text, at the same place, and every other line is its key with the new text; only a last empty line is not read back |
| `CursorFeed.MessageBuffer.constructor` | rust-web-dashboard/lua/screen_messages.lua:21-28 | a new mission starts with an empty buffer |
| `CursorFeed.MessageBuffer.Record` | rust-web-dashboard/lua/screen_messages.lua:38-53 | a message joins the log under the next id, and the buffer is the tail of the log |
| `CursorFeed.MessageBuffer.Since` | rust-web-dashboard/lua/screen_messages.lua:58-67 | the answer is the kept part of the log after the cursor; a cursor ahead of the log counts as 0 |
| `CursorFeed.FeedHook.constructor` | web-dashboard/src/app/chat/page.tsx:76-80 | the feed starts empty, at cursor 0 and key 1 |
| `CursorFeed.FeedHook.Poll` | web-dashboard/src/app/chat/page.tsx:82-111 | the two-attempt loop over references: after a restart to a log that is not empty and shorter than the cursor, the cursor is at its end and the feed is the capped tail of what the server keeps of it, for both feeds; with a cursor the log has reached, what is newer is appended; a failed first fetch changes nothing; and the whole state is that of the polling function |
| `CursorFeed.PollIsRun` | web-dashboard/src/app/chat/page.tsx:82-111 | a poll comes to what asking, answering and delivering come to in the runs below, and once more when it asks again, whatever the log does in between |
| `CursorFeed.FeedHook.TakeKeys` | web-dashboard/src/app/chat/page.tsx:99-102 | each line gets its own key, and the counter moves past them |
| `CursorFeed.FeedHook.Clear` | web-dashboard/src/app/chat/page.tsx:119 | clearing empties the lines and touches neither cursor nor keys |
| `CursorFeed.InitialInv` | web-dashboard/src/app/chat/page.tsx:75-80 | the invariant holds at the start |
| `CursorFeed.RunIsSafe` | web-dashboard/src/app/chat/page.tsx:82-119 | safety over every interleaving of logging, ring drops, restarts, answers, deliveries, failures and clears, an empty chat log after a restart included: the feed is the capped tail of what was delivered, of one mission, with strictly rising ids up to the cursor |
| `CursorFeed.RunIsWhole` | web-dashboard/src/app/chat/page.tsx:95-103 | if the buffer never overruns between answers, the feed is the capped tail of exactly the log up to the cursor |
| `CursorFeed.RunKeepsKeys` | web-dashboard/src/app/chat/page.tsx:79-101 | line keys never repeat over any run |
| `CursorFeed.RestartNoticed` | web-dashboard/src/app/chat/page.tsx:97-104 | what one answer does when the cursor is ahead of the new log, with nothing between the answer and its delivery: it brings the whole buffer, or empties the feed and asks again; only an empty chat log goes unnoticed |
| `CursorFeed.RestartRecovered` | web-dashboard/src/app/chat/page.tsx:82-119 | recovery over any run without a further restart or failure, whatever is logged, cleared or asked between the steps: once that poll is over, and after two answers at the latest, the feed is of the current mission and so is every line in it, and the cursor is the last line the last answer named |
| `CursorFeed.StaleLine` | web-dashboard/src/app/chat/page.tsx:82-105 | a run from the start, through a restart, after which the old line is still shown |
| `CursorFeed.RestartUnnoticed` | web-dashboard/src/app/chat/page.tsx:97-105 | a new log that has reached the cursor is taken for the old one: the lines stay and its newer part is put behind them |
| `WindSolver.RadicandNotNegative` | web-dashboard/src/app/airboss/windSolver.ts:108-116 | the number under the square root is never negative in the regimes that take it |
| `WindSolver.RegimeIs` | web-dashboard/src/app/airboss/windSolver.ts:85-130 | exactly which inputs each regime is for, in target, wind and speed limits; the speed is within the limits, and at the one that a limited regime names |
| `WindSolver.OptimalIsExact` | web-dashboard/src/app/airboss/windSolver.ts:113-117 | optimal: the forward model gives exactly the target wind straight down the angled deck if and only if the speed was not clamped |
| `WindSolver.OptimalUnclamped` | web-dashboard/src/app/airboss/windSolver.ts:113-130 | in terms of the inputs: the lower limit never acts on an optimal speed, and the upper one acts exactly when t cos(offset) exceeds it and the wind is less than the target takes at top speed, t^2 - 2tcM + M^2 > w^2 |
| `WindSolver.LowWindIsExact` | web-dashboard/src/app/airboss/windSolver.ts:108-113 | low wind: the wind is taken abeam, and the apparent wind has the target speed if and only if the speed was not clamped |
| `WindSolver.LimitedCross` | web-dashboard/src/app/airboss/windSolver.ts:96-107 | at a speed limit the cross-deck wind is zero if and only if v sin(offset) is at most the wind speed, and otherwise is the difference |
| `WindSolver.LimitedIsBest` | web-dashboard/src/app/airboss/windSolver.ts:96-107 | no heading at that speed has less cross-deck wind |
| `WindSolver.LimitedIsStrongest` | web-dashboard/src/app/airboss/windSolver.ts:96-107 | of the headings at that speed without cross-deck wind, the chosen one has the most wind down the deck |
| `WindSolver.VmaxIsUnreachable` | web-dashboard/src/app/airboss/windSolver.ts:90-101 | the top-speed regime is chosen only when no heading and no speed within limits reaches the target |
| `WindSolver.ReachableIs` | web-dashboard/src/app/airboss/windSolver.ts:90-117 | whether any heading and any speed within limits have exactly the target straight down the deck: if and only if at some speed within limits the target takes exactly this wind, t^2 - 2tcv + v^2 = w^2, in closed form: the lesser or the greater root is within limits |
| `WindSolver.VminMissed` | web-dashboard/src/app/airboss/windSolver.ts:102-107 | two inputs on which the slowest-speed regime is chosen although the target is within reach, once at each of the two headings |
| `WindSolver.WeakWindKeepsCourse` | web-dashboard/src/app/airboss/windSolver.ts:121-130 | in a weak wind the course is kept, and the wind over the bow is the target if and only if the speed was not clamped |
| `WindSolver.Mod360Is` | web-dashboard/src/app/airboss/windSolver.ts:56-63 | the double remainder, of a truncating remainder, is the representative in 0..360 |
| `WindSolver.HeadingDiffIsSmallest` | web-dashboard/src/app/airboss/windSolver.ts:65-68 | the difference of two headings is the smallest over all whole turns, and is reached |
| `WindSolver.HeadingDiffIsSymmetric` | web-dashboard/src/app/airboss/windSolver.ts:65-68 | it is symmetric and at most a half turn |
| `WindSolver.HeadingInDegrees` | web-dashboard/src/app/airboss/windSolver.ts:86-119 | the heading in degrees is the wind direction plus theta |
| `LsoNotation.SegmentationsExact` | rust-web-dashboard/src/lso_notation.rs:185-199 | sound and complete: a list is returned if and only if its members are glossary symbols and concatenate to the text |
| `LsoNotation.SegmentationsDistinct` | rust-web-dashboard/src/lso_notation.rs:185-199 | no segmentation is returned twice |
| `LsoNotation.CandidatesExact` | rust-web-dashboard/src/lso_notation.rs:298-320 | the readings tried are exactly the admissible ones, with and without a suffix |
| `LsoNotation.ChoiceIsBest` | rust-web-dashboard/src/lso_notation.rs:298-328 | the reading picked is admissible, has a suffix if any admissible one has, and has the fewest symbols among those |
| `NotationTies.ChosenReading` | rust-web-dashboard/src/lso_notation.rs:298-328 | of equally good readings the one is picked that comes first in the tables: the earlier suffix, and with the same suffix the earlier symbol where they part |
| `LsoNotation.TokenIsRead` | rust-web-dashboard/src/lso_notation.rs:256-328 | the deviation of a token spells its stripped core by the best admissible reading; the token is unknown, verbatim, exactly when there is none |
| `NotationMarks.MarksSetMagnitude` | rust-web-dashboard/src/lso_notation.rs:256-328 | the marks of a word set the magnitude and nothing else: bare it is moderate, in parentheses a little, between underscores gross; after `WO` parentheses make no difference |
| `NotationMarks.UnderscoresAreGross` | rust-web-dashboard/src/lso_notation.rs:274-278 | any underscores at the ends of a core are taken off and make it gross, whatever else stands there |
| `NotationMarks.ParenthesesAreALittle` | rust-web-dashboard/src/lso_notation.rs:264-278 | parentheses at the start are taken out and make the token a little, except after `WO`; underscores within them make it gross |
| `NotationMarks.WholeTokens` | rust-web-dashboard/src/lso_notation.rs:257-296 | `[BC]` and nothing else is the ball call; a bare `WO` is a waveoff without symbols |
| `NotationMarks.WireIsRead` | rust-web-dashboard/src/lso_notation.rs:230-251 | the text of a wire gives its number exactly when digits up to 255 end it or stand before a bracket, whose text is read as a token; any other text is unknown, verbatim |
| `NotationMarks.WireInWords` | rust-web-dashboard/src/lso_notation.rs:230-251 | a wire stands in one word or in two, and `WIRE# n[BC]` gives the wire and the ball call |
| `LsoNotation.ParseTokens` | rust-web-dashboard/src/lso_notation.rs:228-254 | the token loop, which looks ahead for bracketed wire tails, equals the items of its turns put into a notation |
| `LsoNotation.TurnsTakeAll` | rust-web-dashboard/src/lso_notation.rs:228-254 | the turns take every token once, in order |
| `LsoNotation.NothingIsDropped` | rust-web-dashboard/src/lso_notation.rs:228-328 | every token is accounted for as a deviation, an unknown, a ball call or part of a wire item |
| `LsoNotation.NotationHoldsItems` | rust-web-dashboard/src/lso_notation.rs:202-328 | the notation holds every deviation and unknown in order and the ball call, and the last wire |
| `LsoNotation.GroupCalls` | rust-web-dashboard/src/lso_notation.rs:353-381 | the run-length groups are maximal and expand back to the meanings |
| `LsoNotation.RunsAreUnique` | rust-web-dashboard/src/lso_notation.rs:353-381 | maximal groups that expand to the same meanings are the same |
| `PilotGroups.LearnNames` | rust-web-dashboard/src/lso.rs:290-304 | the first pass learns the name-to-UCID map |
| `PilotGroups.NameToUcidIs` | rust-web-dashboard/src/lso.rs:290-304 | a name maps to a UCID if and only if that is the only UCID ever seen with it |
| `PilotGroups.KeyIs` | rust-web-dashboard/src/lso.rs:310-317 | the key of a row: its own UCID, else the unique one seen with its name, else the name |
| `PilotGroups.AddPassKeeps` | rust-web-dashboard/src/lso.rs:336-348 | adding a pass to a pilot keeps the record of its passes: counts, newest first, aliases, point sum |
| `PilotGroups.ListByPilot` | rust-web-dashboard/src/lso.rs:283-361 | the one-pass aggregation over a hash index equals the declarative grouping |
| `PilotGroups.RowsShare` | rust-web-dashboard/src/lso.rs:310-348 | two rows share a pilot if and only if their keys agree: the slots of their keys are the same, and so is any slot whose passes hold both rows, the ids of passes being distinct |
| `PilotGroups.GroupedPasses` | rust-web-dashboard/src/lso.rs:310-348 | the passes of a pilot are exactly the rows of its key, in order |
| `PilotGroups.PilotsInOrder` | rust-web-dashboard/src/lso.rs:318-335 | the pilots come in the order in which their keys first appear |
| `PilotGroups.TotalsAddUp` | rust-web-dashboard/src/lso.rs:340-360 | the totals add up to the number of rows, whatever the cap |
| `PilotGroups.CapOnlyShortens` | rust-web-dashboard/src/lso.rs:345-347 | a cap truncates the lists of passes and changes nothing else |
| `GroupLaws.AverageIs` | rust-web-dashboard/src/lso.rs:340-384 | the average of a pilot in grades and points: the scores are those stored with the passes or those of a table of grades, spelled out, refused ones left out; they are counted, added up and divided |
| `GroupLaws.NamesAre` | rust-web-dashboard/src/lso.rs:318-339 | a pilot goes by the name of the newest pass and its date; the aliases are its other names, each once |
| `DeckRoutes.SegmentDistanceIsLeast` | web-dashboard/src/app/airboss/deckRoutes.ts:377-395 | the clamped projection is at most as far as every point of the segment, and lies on it |
| `DeckRoutes.NearestLaunchRoute` | web-dashboard/src/app/airboss/deckRoutes.ts:317-336 | no route exactly when no segment is strictly within the limit, and otherwise the first route with a segment as near as any |
| `DeckRoutes.NearestOfAllPoints` | web-dashboard/src/app/airboss/deckRoutes.ts:317-336 | hence no point of any route is nearer than the distance found |
| `DeckRoutes.ReachedByPoint` | web-dashboard/src/app/airboss/deckRoutes.ts:317-336 | and some point of the chosen route is exactly that near |
| `DeckDistances.NothingWithin` | web-dashboard/src/app/airboss/deckRoutes.ts:317-336 | in distances and coordinates: without a route, every position of every route is at least the limit away |
| `DeckDistances.NearestWithin` | web-dashboard/src/app/airboss/deckRoutes.ts:317-336 | with one, some position of it is nearer than the limit, and none of any route is nearer than that |
| `DeckRoutes.PointAtProgress` | web-dashboard/src/app/airboss/deckRoutes.ts:338-375 | the walk ends on a segment, at a fraction in 0..1, at arc length clamp(p) times the whole, zero-length segments included |
| `DeckDistances.TargetIs` | web-dashboard/src/app/airboss/deckRoutes.ts:357 | the arc length is the progress times the sum of the segment lengths for a progress in 0..1, none below and all of it above |
| `DeckRoutes.ProgressIsMonotone` | web-dashboard/src/app/airboss/deckRoutes.ts:357 | arc length is monotone in the progress and stays on the route |
| `DeckRoutes.ArcLengthFixesPoint` | web-dashboard/src/app/airboss/deckRoutes.ts:357-372 | two points at the same arc length are the same point, whichever segments they were found on |
| `DeckRoutes.EndsOfTheRoute` | web-dashboard/src/app/airboss/deckRoutes.ts:338-375 | no progress is the first point of the route and full progress the last |
| `DisplayOrder.MergeOrder` | web-dashboard/src/components/navPrefs.ts:105-116 | the two passes over stored and registered ids compute the full order |
| `DisplayOrder.FullOrderLaw` | web-dashboard/src/components/navPrefs.ts:105-116 | the full order holds exactly the registered ids, once each, in the order in which stored order and registry first name them |
| `DisplayOrder.FullOrderIsUnique` | web-dashboard/src/components/navPrefs.ts:105-116 | no other list does |
| `DisplayOrder.FullOrderOfComplete` | web-dashboard/src/components/navPrefs.ts:105-116 | a complete stored order is taken as it is |
| `DisplayOrder.MoveSeen` | web-dashboard/src/components/navPrefs.ts:154-161 | splicing an entry in beside its target in the full order moves it, in what is shown, from its place to the target place |
| `DisplayOrder.MoveElsewhere` | web-dashboard/src/components/navPrefs.ts:154-161 | the splice leaves what is not shown as it was, and the full order complete |
| `DisplayOrder.MoveInFull` | web-dashboard/src/components/navPrefs.ts:130-136 | removing by index and inserting by index, the form of the single step, is the same splice |
| `DisplayOrder.DropLandsInSlot` | web-dashboard/src/components/navPrefs.ts:199-201 | a drop at any slot lands the entry between the slot's old neighbours |
| `DisplayOrder.InsertionSlotFor` | web-dashboard/src/components/navPrefs.ts:187-193 | the slot is the first whose middle is past the pointer |
| `NavPrefs.ResolveNav` | web-dashboard/src/components/navPrefs.ts:80-102 | resolving gives each registered page in its list, in full order |
| `NavPrefs.NothingIsLost` | web-dashboard/src/components/navPrefs.ts:80-102 | visible and hidden pages together are the registered ones, whatever was stored |
| `NavPrefs.PinnedIsShown` | web-dashboard/src/components/navPrefs.ts:97 | a pinned page is always visible |
| `NavPrefs.MoveLaw` | web-dashboard/src/components/navPrefs.ts:151-162 | a drag is remove-at-from, insert-at-to on the visible list, and leaves the hidden list |
| `NavPrefs.DropLaw` | web-dashboard/src/components/navPrefs.ts:151-201 | a drop at a slot puts the page between the slot's old neighbours |
| `NavPrefs.DragBack` | web-dashboard/src/components/navPrefs.ts:151-162 | the opposite drag restores both lists |
| `NavPrefs.MoveVisible` | web-dashboard/src/components/navPrefs.ts:123-137 | a single step, by two splices, gives the very preferences of the drag to the adjacent place |
| `NavPrefs.HideLaw` | web-dashboard/src/components/navPrefs.ts:164-168 | hiding takes exactly that page out of the visible list and keeps the full order |
| `NavPrefs.ShowLaw` | web-dashboard/src/components/navPrefs.ts:170-173 | showing takes exactly that page out of the hidden set and keeps the full order |
| `NavPrefs.HideThenShow` | web-dashboard/src/components/navPrefs.ts:164-173 | hide then show restores both lists if and only if the page was not hidden to begin with |
| `ColumnPrefs.ResolvedIs` | web-dashboard/src/app/lso/columnPrefs.ts:96-117 | both lists are the full order seen through one set of shown columns, with the fallback |
| `ColumnPrefs.NothingIsLost` | web-dashboard/src/app/lso/columnPrefs.ts:109-117 | each column is in exactly one list, once, whatever was stored, and a table with columns shows one |
| `ColumnPrefs.MoveLaw` | web-dashboard/src/app/lso/columnPrefs.ts:134-144 | a header drag is remove-at-from, insert-at-to on the visible columns, also under the fallback |
| `ColumnLaws.DragIs` | web-dashboard/src/app/lso/columnPrefs.ts:134-144 | after a drag the column stands at its new place and the others keep their order |
| `ColumnLaws.StepAside` | web-dashboard/src/app/lso/columnPrefs.ts:123-128 | a step of -1 exchanges a visible column with its left neighbour on screen and one of 1 with its right; at the ends it does nothing |
| `ColumnLaws.StepOfUnseen` | web-dashboard/src/app/lso/columnPrefs.ts:125-126 | a column that is not on screen does not step |
| `ColumnPrefs.SwapLaw` | web-dashboard/src/app/lso/columnPrefs.ts:147-155 | a menu step swaps two neighbours of the full order |
| `ColumnPrefs.HideLeavesOne` | web-dashboard/src/app/lso/columnPrefs.ts:158-167 | hiding takes out exactly that column and is refused for the last one |
| `ColumnLaws.HideIs` | web-dashboard/src/app/lso/columnPrefs.ts:158-167 | hiding takes the column out of the visible list, the others in order, and drops the sort if and only if it was by that column; a table that shows all for want of an unhidden column goes on doing so |
| `ColumnLaws.HideRefused` | web-dashboard/src/app/lso/columnPrefs.ts:160 | the last visible column, and one that is not visible, stay as they are |
| `ColumnLaws.ShowIs` | web-dashboard/src/app/lso/columnPrefs.ts:169-172 | showing takes exactly that column out of the hidden ones; it appears beside the visible ones, or alone when the table showed all |
| `ColumnLaws.ClicksAre` | web-dashboard/src/app/lso/columnPrefs.ts:174-184 | clicks on a header sort ascending, descending and not at all, wherever the cycle is entered, and change nothing else |
| `ColumnLaws.ChoiceIs` | web-dashboard/src/app/lso/columnPrefs.ts:174-177 | a chosen sort is taken as it is |
| `ColumnPrefs.StepIsSound` | web-dashboard/src/app/lso/columnPrefs.ts:123-184 | every operation keeps some column unhidden and the sort column visible |
| `ColumnPrefs.RunIsSound` | web-dashboard/src/app/lso/columnPrefs.ts:96-184 | over every run from the defaults: nothing lost, the fallback never applies, the sort column is visible |
| `ColumnPrefs.CompareIsTotal` | web-dashboard/src/app/lso/columnPrefs.ts:203-214 | comparing the other way round gives the opposite sign, in both directions |
| `ColumnPrefs.CompareIsTransitive` | web-dashboard/src/app/lso/columnPrefs.ts:203-214 | the comparison of numbers, texts and missing values is transitive, in both directions |
| `ColumnPrefs.SortRowsLaw` | web-dashboard/src/app/lso/columnPrefs.ts:217-222 | the sorted rows are a permutation in order of value, with missing values last in both directions and equal ones in incoming order |
| `ColumnLaws.RowsInOrder` | web-dashboard/src/app/lso/columnPrefs.ts:203-222 | the same in the values themselves: ascending, numbers rise, texts follow the collation and numbers come before texts, descending the other way round, missing values last both ways; rows that could stand either way stand as they came |
| `ColumnPrefs.SortIsDetermined` | web-dashboard/src/app/lso/columnPrefs.ts:217-222 | the comparator leaves one outcome, however the sort is done |
| `ColumnPrefs.SortTwice` | web-dashboard/src/app/lso/columnPrefs.ts:217-222 | sorting a sorted table changes nothing |
| `RadarBatch.CreatedIs` | web-dashboard/src/app/airboss/deckTracking.ts:99-117 | the batch of one message is well formed and does what the message says |
| `RadarBatch.MergedLaw` | web-dashboard/src/app/airboss/deckTracking.ts:119-139 | merging any two well-formed batches keeps updates and gone ids disjoint and gone ids unique, and applying the merge is applying one and then the other |
| `RadarBatch.PendingBatch.Append` | web-dashboard/src/app/airboss/deckTracking.ts:119-132 | appending in place takes the message as it would be on its own, after what is pending |
| `RadarBatch.ApplyRadarBatch` | web-dashboard/src/app/airboss/deckTracking.ts:134-139 | the deletions on a fresh copy give the snapshot with the batch applied |
| `RadarBatch.StepLaw` | web-dashboard/src/app/airboss/page.tsx:78-104 | one message or one timer keeps the batch well formed and a commit to come |
| `RadarBatch.BatchingIsInvisible` | web-dashboard/src/app/airboss/page.tsx:78-104 | over every interleaving of messages and commits, the snapshot with the pending batch applied is the fold of all messages one at a time |
| `RadarBatch.CommittedIsCurrent` | web-dashboard/src/app/airboss/page.tsx:78-83 | after a commit the snapshot is that fold |
| `RadarLaws.LastWord` | web-dashboard/src/app/airboss/page.tsx:78-104 | after a commit a unit is shown exactly when the last message that speaks of it reports it, with the sample of that message |
| `RadarLaws.NoWord` | web-dashboard/src/app/airboss/page.tsx:78-104 | a unit that no message speaks of is shown as before |
| `RadarBatch.RadarView.OnMessage` | web-dashboard/src/app/airboss/page.tsx:90-104 | the stream handler, with its references, takes that step |
| `RadarBatch.RadarView.Commit` | web-dashboard/src/app/airboss/page.tsx:78-83 | the commit, with its references, takes that step |

## Left out

- SaveThenLoad: keys with a quote, a backslash or a line break, mission paths with a quote or a line break, and
  advanced values that go into the file unquoted are shut out by `Saveable`; a raw advanced string is Lua code.
- RunRefinesList: the file must be `Ready`, that is, the searched block is the one Lua reads and a comma or the end of
  the table follows it; `SavedQueue.SavedIsReady` gives this for the files that were saved with a mission array,
  `EditedSettings` and `EditedSees` say what happens otherwise.
- SavedSwitch: like the other laws of `SavedSettings`, of a payload with distinct keys that is printed and read back;
  `SaveThenLoad` says when it is. So too `SavedOption` for the options.
- SavedIsReady: a payload without a mission array has no block to edit, and an advanced option called `missionList`
  stands before the block, so that the search finds it instead.
- RunIsSafe: a restart that the client cannot see, because the new log has reached the old cursor when it is asked, is a
  hypothesis; `RestartUnnoticed` says what such an answer does.
- RestartRecovered: the same hypothesis, since the log can grow past the cursor before the request is answered, and no
  further restart or failed request in the run; a chat log that is still empty is the case of `StaleLine`.
- RestartNoticed: one answer, delivered at once; `RestartRecovered` is the statement about runs.
- SavedLoads: paths with a quote are shut out (`QuoteFree`): written as a key, such a text can end its brackets and go on
  as other code. A value that starts with a quote is one string; a table literal or any other value is taken as it is,
  and a decimal escape above 127 counts as unreadable. A line that no pattern matches assigns nothing.
- SavedFileLaw: the file is tidy, that is, its keys have no dots and no escapes and no path is declared twice, and the
  saved file loads, which is exactly `Fits` by `SavedFileLoads`. The loss of layout is not modelled, such as the comma
  that goes when `a = 1, -- note` is replaced or the comma that is missing when an entry goes in after a last one without.
- RunOfSaves: new keys and values hold no newline, since such a text is several lines of the file for the next save.
- NumberReads: whole numbers; the text of a fraction is taken as it is printed.
- PrintRead: names, keys and values without blanks at their ends, newlines, or signs that would make another kind of line;
  each section and key once. `PutGet` and `TraceLaw` are about any file.
- ChosenReading: the tables name each symbol and suffix once.
- MarksSetMagnitude: of a word that is unmarked itself; the two lemmas after it are about any text.
- UpdateLaw: speaks of the dotted paths of the lines as the editor reads them and not of Lua's tables.
- PutGet: the new values are single lines.
- PostTwice: the new values are single lines.
- LinesKept: the new values are single lines; a value with a newline in it moves the lines after it.
- HeadersKept: the new values are single lines, since a later line of a value can be a header of its own.
- Numbers of the settings are whole and small enough to be exact as floating-point numbers; the text of fractions, the
  parsing of number strings and the JSON text of arrays and objects are library calls, taken as parameters.
- The Lua reader covers table constructors with bracketed keys, quoted strings, integers, words and line comments; long
  strings, long comments, positional fields and expressions count as unreadable. Bytes above 127 in decimal escapes too.
- An integer key of the top-level or advanced table is kept apart from its text, where the loader turns it into text.
- `server_info`, `mission_list` of a missing list, the public address, and file access around the settings.
- Foothold lines are taken as classified: the patterns, indentation, commas, trailing comments and the metadata read from
  comments are not modelled, and the text of a value is one opaque line. Letters outside ASCII in keys are not covered.
- The updates come from a hash map, in any order; the model takes a list in that order, with distinct keys.
- The INI model takes the payload as maps of texts; the JSON text of nested values and the number and truth reading of
  values are left to the library, and a payload that is not an object is refused before the modelled part.
- The chat server's own history call is not part of this model: it is taken to answer with the lines after the cursor,
  and with none when the cursor is ahead.
- React state, timers, error texts and formatting around the feeds; a failed fetch ends a poll.
- Angles of the wind solver are unit vectors, square roots and inverse sines are given by what they satisfy, and numbers
  are real: no rounding.
- The header of a landing comment (`LSO:`, `GRADE:`, a no-count's free text) and the English sentence; the glossary is a
  parameter, and splitting a comment into words is taken as done.
- Database access, chart files and landing grades as texts; the rows of the landing table are a list, newest first.
- Deck distances are compared by their squares and segment lengths are given; the static route tables are parameters.
- `localeCompare` is any total preorder, and numbers in cells are real; the library sort is modelled by insertion, which
  `ColumnPrefs.SortIsDetermined` shows to make no difference. Rows with a not-a-number key are not covered.
- Stored preferences are taken as parsed; the registry of pages has distinct ids.
- Rebuilding `deckTracking` positions, headings and interpolation from the samples, and the order of keys in a snapshot.
- The comment on `moveVisible` says that a hidden page keeps its slot relative to the moved page; the code keeps the order
  of the hidden pages among themselves, which is what `NavPrefs.MoveLaw` states.
- Authentication, audit log, network, gRPC, system calls and the legacy routes.
