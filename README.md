# TravelAgent output bookkeeping, in Dafny

TravelAgent is a Streamlit app. It collects trip parameters in a form and hands
them to a crewAI "crew" of agents. The agents write four Markdown reports:
a destination guide, flight options, hotel recommendations and an itinerary.
Most of `app.py` is glue around foreign libraries. This project models the parts
that have behaviour of their own:

- `TravelPlanningCrew.__init__` writes four temporary drafts holding a fixed placeholder.
- `TravelPlanningCrew.run` has four steps.
  - It deletes the four final outputs.
  - It computes the itinerary length with `strptime` and lets the crew run.
  - It writes a failure notice into every final output that is missing or empty.
  - It returns the fixed name→path dictionary.
- The notice heading is `name.replace('_', ' ').title()`.
- `display_markdown_file` reads a file with up to three attempts.
- The `days` difference of `create_tasks` parses both dates with `strptime("%Y-%m-%d")`.
- The form's default dates.
- The members that `create_zip_file` puts in the download archive.

Modules, one file each:

- `Wrappers` (`wrappers.dfy`): `Option`.
- `Text` (`text.dfy`): Python's `str.strip`, `str.replace` of one character and `str.title`.
- `Calendar` (`calendar.dfy`): proleptic Gregorian dates, ordinals as `date.toordinal` computes them, `strptime`/`strftime` with `%Y-%m-%d`, and the trip length.
- `FileTable` (`files.dfy`): the working directory as a class holding a map from path to contents. Its methods remove a file, open one for writing, and append to it.
- `Crew` (`crew.dfy`): `TravelPlanningCrew`, its constructor and `Run`, and the fold functions that specify their loops.
- `Bundle` (`bundle.dfy`): `display_markdown_file` and the member selection of `create_zip_file`.

`crew.kickoff()` is a call into the agents and the language model. It is a
parameter of `Run`: an arbitrary function from the itinerary length and the
file table it finds to the file table it leaves. Nothing about it is assumed.
The reads of `display_markdown_file` are a parameter as well: the sequence of
what each of the three attempts sees.

## Model

| member | source | states |
|---|---|---|
| Crew.TravelPlanningCrew.constructor | app.py:115-127 | keeps the trip; the four draft paths are `temp_outputs/temp_<name>.md`; the file table afterwards is the old table with each draft set to the placeholder |
| Crew.WithDrafts | app.py:124-127 | the table after the constructor's loop: the old table with each draft path in turn set to the placeholder |
| Crew.DraftPaths | app.py:118-121 | the four drafts `temp_outputs/temp_<name>.md`, in the order the constructor writes them |
| Crew.OutputFiles | app.py:544-549 | the dictionary `run` builds and returns: each of the four names mapped to `<name>.md` |
| Crew.NeedsNotice | app.py:579 | `not os.path.exists(path) or os.path.getsize(path) == 0`: the path is missing or its file is empty |
| Crew.FinalizeStep | app.py:579-583 | one turn of the finalization loop: an output that needs a notice is set to its name's notice, otherwise the table is unchanged |
| Crew.Finalized | app.py:578-583 | the table after the finalization loop: the turns applied to the entries in order |
| Crew.Heading | app.py:581 | `name.replace('_', ' ').title()` |
| Crew.FailureNotice | app.py:581-583 | the text a missing or empty output receives: `"# "`, the heading, `"\n\n"`, then the two fixed sentences |
| Crew.TravelPlanningCrew.ItineraryDays | app.py:339-342 | the `days` that `create_tasks` computes from the trip's two dates, or none where `strptime` raises |
| Crew.TravelPlanningCrew.WriteDrafts | app.py:124-127 | the draft-writing loop leaves exactly the old table with every listed draft opened for writing and holding the placeholder |
| Crew.WithDraftsContents | app.py:124-127 | after the drafts are written, each draft path holds exactly `"# Placeholder content\nThis file will be updated by the AI agent."`; every other path keeps its contents |
| Crew.DraftsAreNotOutputs | app.py:118-121 | no draft path is one of the four final output paths, so clearing the outputs leaves the drafts in place |
| Crew.TravelPlanningCrew.ClearOutputs | app.py:551-553 | the clear loop removes each listed output that exists and changes no other path |
| Crew.Cleared | app.py:551-553 | after clearing, no listed path exists and every other path keeps its contents |
| Crew.TravelPlanningCrew.FinalizeOutputs | app.py:578-583 | the finalization loop leaves exactly the fold `Finalized` of the table it found: each listed output that is missing or empty gets its notice, written as the source writes it (open, then three writes) |
| Crew.NoticeWrittenInParts | app.py:580-583 | the three writes into a freshly opened file add up to the notice |
| Crew.TravelPlanningCrew.WriteNotice | app.py:580-583 | opening the output for writing and writing the three parts leaves exactly that output holding the notice, every other path unchanged |
| Crew.FinalizedFillsEveryOutput | app.py:578-583 | after finalization every listed output exists and is non-empty, whatever was there before |
| Crew.FinalizedKeepsGoodOutputs | app.py:579 | an output that already exists with non-zero size is left unchanged |
| Crew.FinalizedTouchesOnlyOutputs | app.py:578-583 | finalization leaves every path that is not a listed output as it was |
| Crew.FinalizedWritesNotice | app.py:579-583 | a missing or empty output ends up holding exactly `"# " + heading + "\n\n" + "Sorry, there was an issue generating this content. " + "Please try again or adjust your parameters."` |
| Crew.OutputsFilled | app.py:544-549 | every path of the returned dictionary exists and is non-empty after finalization |
| Crew.TravelPlanningCrew.Run | app.py:542-585 | returns a result exactly when both dates parse. If `strptime` raises, only the clear has happened. Otherwise the result is the fixed four-entry dictionary, the table is the finalization of whatever `kickoff` left after the clear, and every returned path exists and is non-empty |
| Crew.SnakeCaseHeading | app.py:581 | for lower-case words joined by `_`, the heading has a space for each `_`, upper-cases the first letter of each word and keeps the rest |
| Crew.SpacedWords | app.py:581 | `replace('_', ' ')` turns the `_` after a lower-case word into a space |
| Crew.TwoWordHeading | app.py:581 | two lower-case words joined by `_` give both words capitalised, joined by a space |
| Crew.DestinationWord | app.py:545 | `destination` is a lower-case word and capitalises to `Destination` |
| Crew.GuideWord | app.py:545 | `guide` is a lower-case word and capitalises to `Guide` |
| Crew.FlightWord | app.py:546 | `flight` is a lower-case word and capitalises to `Flight` |
| Crew.OptionsWord | app.py:546 | `options` is a lower-case word and capitalises to `Options` |
| Crew.HotelWord | app.py:547 | `hotel` is a lower-case word and capitalises to `Hotel` |
| Crew.RecommendationsWord | app.py:547-548 | `recommendations` is a lower-case word and capitalises to `Recommendations` |
| Crew.ItineraryWord | app.py:548 | `itinerary` is a lower-case word and capitalises to `Itinerary` |
| Crew.DestinationGuideHeading | app.py:581 | the heading of `destination` joined by `_` to `guide` is `Destination` joined by a space to `Guide` |
| Crew.FlightOptionsHeading | app.py:581 | the heading of `flight` joined by `_` to `options` is `Flight` joined by a space to `Options` |
| Crew.HotelRecommendationsHeading | app.py:581 | the heading of `hotel` joined by `_` to `recommendations` is `Hotel` joined by a space to `Recommendations` |
| Crew.ItineraryRecommendationsHeading | app.py:581 | the heading of `itinerary` joined by `_` to `recommendations` is `Itinerary` joined by a space to `Recommendations` |
| Crew.DestinationGuideKeyHeading | app.py:545 | the notice heading of the key `destination_guide` is `Destination Guide` |
| Crew.FlightOptionsKeyHeading | app.py:546 | the notice heading of the key `flight_options` is `Flight Options` |
| Crew.HotelRecommendationsKeyHeading | app.py:547 | the notice heading of the key `hotel_recommendations` is `Hotel Recommendations` |
| Crew.ItineraryRecommendationsKeyHeading | app.py:548 | the notice heading of the key `itinerary_recommendations` is `Itinerary Recommendations` |
| Crew.OutputFilesAreEntries | app.py:544-549 | the dictionary and the ordered entries agree, and the four paths are distinct |
| Text.Strip | app.py:597 | `s.strip()`: `rstrip` of `lstrip` |
| Text.StripLeading | app.py:597 | `s.lstrip()`: drops characters from the front while they are white space |
| Text.StripTrailing | app.py:597 | `s.rstrip()`: drops characters from the back while they are white space |
| Text.TitleFrom | app.py:581 | the loop of `str.title()`: each character is lowered when the one before it in the result is cased and upper-cased otherwise |
| Text.Title | app.py:581 | `s.title()`: the loop started with no cased character before the string |
| Text.StripLeadingShape | app.py:597 | `lstrip()` removes exactly the leading white space, as `str.isspace` defines it, and leaves a suffix that does not start with white space |
| Text.StripTrailingShape | app.py:597 | `rstrip()` removes exactly the trailing white space and leaves a prefix that does not end with white space |
| Text.StripEmptyIffBlank | app.py:597 | `content.strip()` is empty exactly when every character is white space |
| Text.ReplaceChar | app.py:581 | `replace('_', ' ')` keeps the length and changes exactly the `_` characters |
| Text.ToUpper | app.py:581 | upper-casing maps each lower-case letter to its own upper-case letter (32 code points below) and keeps every other character, upper-case letters included |
| Text.ToLower | app.py:581 | lower-casing maps each upper-case letter to its own lower-case letter (32 code points above) and keeps every other character, lower-case letters included |
| Text.CaseRoundTrip | app.py:581 | upper-casing then lowering a lower-case letter gives it back, and the other way round |
| Text.TitleFromAt | app.py:581 | each character of `title()` depends only on the character itself and on whether the one before it is cased |
| Text.TitleFromLength | app.py:581 | `title()` keeps the length |
| Text.TitleAt | app.py:581 | `title()` upper-cases a cased character that follows an uncased one, lower-cases one that follows a cased one, and keeps uncased characters |
| Text.TitleIdempotent | app.py:581 | `title()` of a title-cased string changes nothing |
| Text.TitleFromAppend | app.py:581 | `title()` of a concatenation is the title of each part, the second part continuing from the last character of the first |
| Text.TitleFromLowerWord | app.py:581 | a word of lower-case letters after a cased letter is unchanged by `title()` |
| Text.TitleOfLowerWord | app.py:581 | `title()` of a lower-case word upper-cases its first letter and keeps the rest |
| Text.TitleAfterSpace | app.py:581 | after a space, `title()` starts a new word |
| Text.TitleOfTwoWords | app.py:581 | `title()` of two lower-case words separated by a space capitalises each word |
| Bundle.Shows | app.py:594-597 | an attempt returns its content when the file existed, the read succeeded and `content.strip()` is non-empty |
| Bundle.MemberName | app.py:906 | the archive member name `f"{file_name}.md"` |
| Bundle.FirstShown | app.py:592-598 | the index of the first attempt that read a file whose `strip()` is non-empty; no earlier attempt did |
| Bundle.FirstShownIs | app.py:592-598 | an attempt whose `strip()` is non-empty, after attempts that showed nothing, is the one returned |
| Bundle.DisplayMarkdownFile | app.py:587-604 | makes between one and three attempts. The result is the unstripped text of the first attempt whose `strip()` is non-empty, or the default once all three fail. When the default's `strip()` is non-empty, so is the result's |
| Bundle.DisplayedNotBlank | app.py:587-604 | whatever the attempts see, the text shown is not blank when the default is not blank |
| Bundle.MemberNameRoundTrip | app.py:906 | the output name can be read back from the member name `name + ".md"` |
| Bundle.ZipMembers | app.py:902-906 | there is one member `name + ".md"` for each entry whose path exists, holding that file's contents; there are no other members, so entries with no file are skipped |
| Bundle.ArchiveOfFilledOutputs | app.py:902-906 | when every path exists and is non-empty, there is exactly one member per entry, each non-empty |
| Bundle.ArchiveAfterRun | app.py:585 | the archive of what `run` returns has exactly the four `<name>.md` members, each non-empty and identical to the file on disk |
| Calendar.Ordinal | app.py:342 | `date.toordinal()`: days before the year, plus days before the month in that year, plus the day |
| Calendar.YearLengthsBefore | app.py:342 | the number of days in the years before a year, counted year by year, as a reference for the closed formula |
| Calendar.TripDays | app.py:339-342 | `days = (end_date - start_date).days` after both `strptime` calls: the difference of the two ordinals, or none where either date does not parse |
| Calendar.DaysInMonth | app.py:339-342 | every month of the Gregorian calendar has between 28 and 31 days |
| Calendar.DivStep | app.py:342 | the leap-year counts of the day formula grow by one exactly at multiples of 4, 100 and 400 |
| Calendar.YearStep | app.py:342 | the days before year `y + 1` are those before `y` plus the length of `y` |
| Calendar.DaysBeforeYearCountsYears | app.py:342 | the closed formula for the days before a year equals the sum of the lengths of the years before it |
| Calendar.MonthStep | app.py:342 | the days before month `m + 1` are those before `m` plus the length of `m` |
| Calendar.NextDay | app.py:705 | the next day of a valid date is valid |
| Calendar.NextDayOrdinal | app.py:705 | the next day has the next ordinal |
| Calendar.AddDays | app.py:711-712 | adding days to a valid date gives a valid date, never in an earlier year |
| Calendar.AddDaysOrdinal | app.py:711-712 | adding `n` days adds `n` to the ordinal |
| Calendar.AddDaysAdd | app.py:711-712 | adding `m` days, then `n`, is adding `m + n` |
| Calendar.DaysBeforeYearGrows | app.py:342 | a later year starts at a larger ordinal |
| Calendar.DaysBeforeMonthGrows | app.py:342 | a later month of the same year starts later |
| Calendar.WithinYear | app.py:342 | every day of a year lies between the start of that year and the start of the next |
| Calendar.OrdinalFollowsOrder | app.py:342 | an earlier date has a smaller ordinal |
| Calendar.OrdinalOrder | app.py:342 | ordinals are ordered exactly as the dates, and equal exactly for the same date |
| Calendar.DigitValue | app.py:340-341 | the value of a decimal digit is between 0 and 9 |
| Calendar.DigitChar | app.py:755-756 | the digit character written for a value, which reads back as that value |
| Calendar.MatchMonth | app.py:340-341 | `%m` followed by `-` reads a month from 1 to 12 in one or two characters |
| Calendar.MatchDay | app.py:340-341 | `%d` reads a day from 1 to 31 in one or two characters |
| Calendar.ParseIsoDate | app.py:340-341 | what `strptime` accepts is a valid date with a four-digit year |
| Calendar.TwoDigits | app.py:755-756 | `%m` and `%d` write a number below 100 as two decimal digits, zero-padded |
| Calendar.FormatIsoDate | app.py:755-756 | `strftime("%Y-%m-%d")` of a four-digit year writes ten characters: the year's four digits, `-`, the month's two zero-padded digits, `-`, the day's two zero-padded digits |
| Calendar.ParseFormatRoundTrip | app.py:755-756 | `strptime` reads back exactly the date that `strftime` wrote |
| Calendar.TripDaysOfParsed | app.py:339-342 | `days` is the difference of the two parsed dates' ordinals |
| Calendar.TripDaysSign | app.py:339-342 | `days` is positive exactly when the return is later, zero exactly for the same day, and negative exactly when the return is earlier |
| Calendar.TripDaysSwap | app.py:339-342 | swapping the dates negates `days` |
| Calendar.TripDaysOfFormatted | app.py:339-342 | for two dates written by the form, `days` is the difference of their ordinals |
| Calendar.TripDaysCountsDays | app.py:339-342 | a return date `n` days after the departure gives `days == n` |
| Calendar.DefaultFormDates | app.py:704-712 | the form's default dates, 100 and 107 days after tomorrow, give `days == 7` whatever today is |
| Calendar.TripDaysWeek | app.py:339-342 | `2025-03-01` to `2025-03-08` gives 7, and the reverse gives -7 |
| Calendar.ParseUnpadded | app.py:340 | `strptime` also accepts `2025-3-1` |
| Calendar.ParseRejects | app.py:340 | `2025-02-29`, `2025-01-32` and `0000-01-01` raise |
| FileTable.FileSystem.constructor | app.py:116 | the file table starts as given |
| FileTable.FileSystem.Remove | app.py:553 | `os.remove` deletes exactly that path |
| FileTable.FileSystem.Create | app.py:126 | `open(path, 'w')` leaves the path present and empty, and changes nothing else |
| FileTable.FileSystem.Append | app.py:127 | `f.write(text)` appends the text to that file only |

## Left out

- The Streamlit interface is presentation only and is not modelled: the form widgets, their bounds, CSS, tabs, agent cards, spinner, download button and the progress-bar loop with its sleeps.
- Building the crewAI agents and tasks, the prompt texts and the language-model setup are foreign code. `kickoff` is an arbitrary function of the file table. An exception escaping `kickoff` or `create_agents` is not modelled.
- Category isolation between the four reports is not modelled. It exists only as prompt text, and no code checks it.
- The flight and hotel search tools (`tools/flightAgent.py`, `tools/HotelAgent.py`) are not modelled. Each wraps a network call to SerpAPI.
- ZIP/DEFLATE encoding and the in-memory buffer are not modelled. Only the choice of members and their contents is.
- Directories are not modelled. `os.makedirs` and a path's directory part are not modelled; the file table is flat.
- Environment and API-key setup, logging, `time.sleep` delays and `st.warning` in the retry handler are not modelled.
- Files are read as text and as bytes without a distinction: contents are strings of characters, not UTF-8 bytes. `os.path.getsize(p) == 0` is modelled as empty contents, which is the same condition under UTF-8.
- Text.TitleFrom: `str.title` is modelled for ASCII letters only. Other characters count as uncased and are kept. The four output names are ASCII.
- Calendar.ParseIsoDate: `\d` in `strptime` also accepts non-ASCII decimal digits; the model accepts ASCII digits only.
- Calendar.FormatIsoDate: `strftime` is modelled for four-digit years only. The form only offers dates near today.
- Calendar.AddDays: Python raises `OverflowError` past year 9999. The model does not, and the lemmas that format a date require a year of at most 9999 instead.
- The trip parameters other than the two dates are carried but not used. They only fill prompt text.
- File operations are modelled as never raising: `os.remove`, `open`, `write`, `os.path.exists`, `os.path.getsize` and the `'rb'` read of `create_zip_file`. In the code an `OSError` from any of them (a permission error, a full disk) escapes `run` or `create_zip_file` to the caller's `except Exception`. So `Crew.TravelPlanningCrew.Run` returns a result exactly when both dates parse only because the file operations cannot fail in the model. Only `display_markdown_file` models a failed read (`Bundle.Attempt.ReadFailed`).
- Nothing in the code rejects a return date earlier than the departure, so `days` may be zero or negative (Calendar.TripDaysSign).
