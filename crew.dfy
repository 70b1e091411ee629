/** `TravelPlanningCrew` of app.py: the bookkeeping of its output files. The
    constructor writes four placeholder drafts; `run` deletes the four final
    outputs, lets the crew work (`kickoff`, an arbitrary change of the file
    table), and then makes sure every final output exists and is non-empty. */
module Crew {
  import opened Wrappers
  import opened Text
  import opened Calendar
  import opened FileTable

  /** What the form hands to the crew. Nothing here is validated: the widget
      bounds (at least one adult, hotel class 1 to 5) belong to the form. */
  datatype TripParameters = TripParameters(
    destination: string,
    departureAirport: string,
    arrivalAirport: string,
    outboundDate: string,
    returnDate: string,
    numTravelers: int,
    hotelCity: string,
    rooms: int,
    adults: int,
    children: int,
    hotelClass: int,
    preferences: string,
    budget: string,
    specialRequirements: string)

  const TempOutputDir: Path := "temp_outputs"

  /** What every draft holds before its agent writes it. */
  const DraftPlaceholder: string := "# Placeholder content\nThis file will be updated by the AI agent."

  /** `output_files` of `run` as its items, in the dictionary's insertion
      order. Both loops of `run` walk the dictionary in this order; a Dafny
      map has none, so this sequence exists only to keep that order.
      `OutputFilesAreEntries` proves it holds the same pairs as `OutputFiles`. */
  const OutputEntries: seq<(string, Path)> := [
    ("destination_guide", "destination_guide.md"),
    ("flight_options", "flight_options.md"),
    ("hotel_recommendations", "hotel_recommendations.md"),
    ("itinerary_recommendations", "itinerary_recommendations.md")
  ]

  /** The dictionary `run` builds and returns. */
  function OutputFiles(): map<string, Path>
  {
    map[
      "destination_guide" := "destination_guide.md",
      "flight_options" := "flight_options.md",
      "hotel_recommendations" := "hotel_recommendations.md",
      "itinerary_recommendations" := "itinerary_recommendations.md"
    ]
  }

  function Paths(entries: seq<(string, Path)>): (r: seq<Path>)
    ensures |r| == |entries| && forall i | 0 <= i < |entries| :: r[i] == entries[i].1
  {
    seq(|entries|, i requires 0 <= i < |entries| => entries[i].1)
  }

  /** No two entries share a path. */
  predicate DistinctPaths(entries: seq<(string, Path)>)
  {
    forall i, j | 0 <= i < j < |entries| :: entries[i].1 != entries[j].1
  }

  /** The returned dictionary and the entries the loops walk are the same. */
  lemma OutputFilesAreEntries()
    ensures DistinctPaths(OutputEntries)
    ensures OutputFiles().Keys == set e | e in OutputEntries :: e.0
    ensures forall i | 0 <= i < |OutputEntries| :: OutputFiles()[OutputEntries[i].0] == OutputEntries[i].1
  {
  }

  /** The table after the constructor's loop has written the placeholder
      into each path of `drafts`, in order. */
  function WithDrafts(t: Table, drafts: seq<Path>): Table
    decreases |drafts|
  {
    if drafts == [] then t
    else WithDrafts(t, drafts[..|drafts| - 1])[drafts[|drafts| - 1] := DraftPlaceholder]
  }

  /** Every draft holds the placeholder; every other path is as it was. */
  lemma {:induction false} WithDraftsContents(t: Table, drafts: seq<Path>, p: Path)
    ensures p in drafts ==> p in WithDrafts(t, drafts) && WithDrafts(t, drafts)[p] == DraftPlaceholder
    ensures p !in drafts ==> (p in WithDrafts(t, drafts) <==> p in t)
    ensures p !in drafts && p in t ==> WithDrafts(t, drafts)[p] == t[p]
    decreases |drafts|
  {
    if drafts != [] {
      var n := |drafts| - 1;
      assert drafts == drafts[..n] + [drafts[n]];
      WithDraftsContents(t, drafts[..n], p);
    }
  }

  /** The table after `run`'s clean-up loop. */
  function Cleared(t: Table, paths: seq<Path>): (r: Table)
    ensures forall p | p in paths :: p !in r
    ensures forall p | p !in paths :: (p in r <==> p in t) && (p in t ==> r[p] == t[p])
  {
    t - set p | p in paths
  }

  /** `name.replace('_', ' ').title()`. */
  function Heading(name: string): string
  {
    Title(ReplaceChar(name, '_', ' '))
  }

  /** What `run` writes into a missing or empty final output. */
  function FailureNotice(name: string): string
  {
    "# " + Heading(name) + "\n\n"
      + "Sorry, there was an issue generating this content. "
      + "Please try again or adjust your parameters."
  }

  /** The three writes of the finalization loop make up the notice. */
  lemma NoticeWrittenInParts(name: string)
    ensures [] + ("# " + Heading(name) + "\n\n")
          + "Sorry, there was an issue generating this content. "
          + "Please try again or adjust your parameters." == FailureNotice(name)
  {
  }

  /** `not os.path.exists(path) or os.path.getsize(path) == 0`. */
  predicate NeedsNotice(t: Table, path: Path)
  {
    path !in t || t[path] == []
  }

  /** One turn of the finalization loop. */
  function FinalizeStep(t: Table, entry: (string, Path)): Table
  {
    if NeedsNotice(t, entry.1) then t[entry.1 := FailureNotice(entry.0)] else t
  }

  /** The table after the finalization loop has gone through `entries`. */
  function Finalized(t: Table, entries: seq<(string, Path)>): Table
    decreases |entries|
  {
    if entries == [] then t
    else FinalizeStep(Finalized(t, entries[..|entries| - 1]), entries[|entries| - 1])
  }

  /** After finalization, every output path exists and is non-empty, whatever
      the table held before. */
  lemma {:induction false} FinalizedFillsEveryOutput(t: Table, entries: seq<(string, Path)>, j: int)
    requires 0 <= j < |entries|
    ensures entries[j].1 in Finalized(t, entries) && Finalized(t, entries)[entries[j].1] != []
    decreases |entries|
  {
    var n := |entries| - 1;
    var before := Finalized(t, entries[..n]);
    if j < n {
      FinalizedFillsEveryOutput(t, entries[..n], j);
      assert entries[..n][j] == entries[j];
    }
  }

  /** An output that already exists and is non-empty is left untouched. */
  lemma {:induction false} FinalizedKeepsGoodOutputs(t: Table, entries: seq<(string, Path)>, p: Path)
    requires p in t && t[p] != []
    ensures p in Finalized(t, entries) && Finalized(t, entries)[p] == t[p]
    decreases |entries|
  {
    if entries != [] {
      FinalizedKeepsGoodOutputs(t, entries[..|entries| - 1], p);
    }
  }

  /** Paths that are not outputs are neither created, removed nor changed. */
  lemma {:induction false} FinalizedTouchesOnlyOutputs(t: Table, entries: seq<(string, Path)>, p: Path)
    requires p !in Paths(entries)
    ensures p in Finalized(t, entries) <==> p in t
    ensures p in t ==> Finalized(t, entries)[p] == t[p]
    decreases |entries|
  {
    if entries != [] {
      var n := |entries| - 1;
      assert Paths(entries[..n]) == Paths(entries)[..n];
      FinalizedTouchesOnlyOutputs(t, entries[..n], p);
    }
  }

  /** A missing or empty output gets exactly the failure notice of its name. */
  lemma {:induction false} FinalizedWritesNotice(t: Table, entries: seq<(string, Path)>, j: int)
    requires DistinctPaths(entries) && 0 <= j < |entries|
    requires NeedsNotice(t, entries[j].1)
    ensures entries[j].1 in Finalized(t, entries)
    ensures Finalized(t, entries)[entries[j].1] == FailureNotice(entries[j].0)
    decreases |entries|
  {
    var n := |entries| - 1;
    var prefix := entries[..n];
    if j == n {
      FinalizedTouchesOnlyOutputs(t, prefix, entries[j].1);
    } else {
      assert prefix[j] == entries[j];
      FinalizedWritesNotice(t, prefix, j);
      FinalizedFillsEveryOutput(t, prefix, j);
    }
  }

  /** Whatever the crew left behind, after finalization every path of the
      returned dictionary exists and is non-empty. */
  lemma OutputsFilled(u: Table)
    ensures forall name | name in OutputFiles() ::
      OutputFiles()[name] in Finalized(u, OutputEntries) && Finalized(u, OutputEntries)[OutputFiles()[name]] != []
  {
    forall j | 0 <= j < |OutputEntries|
      ensures OutputEntries[j].1 in Finalized(u, OutputEntries) && Finalized(u, OutputEntries)[OutputEntries[j].1] != []
    {
      FinalizedFillsEveryOutput(u, OutputEntries, j);
    }
    OutputFilesAreEntries();
  }

  /** For names made of lower-case words joined by `_`, the heading puts a
      space for each `_` and capitalises the first letter of each word. */
  lemma SnakeCaseHeading(name: string)
    requires forall i | 0 <= i < |name| :: IsLower(name[i]) || name[i] == '_'
    ensures |Heading(name)| == |name|
    ensures forall i | 0 <= i < |name| ::
      Heading(name)[i] == if name[i] == '_' then ' '
                          else if i == 0 || name[i - 1] == '_' then ToUpper(name[i])
                          else name[i]
  {
    var spaced := ReplaceChar(name, '_', ' ');
    if name != [] {
      TitleAt(spaced, 0);
    }
    forall i | 0 <= i < |name|
      ensures Heading(name)[i] == if name[i] == '_' then ' '
                                  else if i == 0 || name[i - 1] == '_' then ToUpper(name[i])
                                  else name[i]
    {
      TitleAt(spaced, i);
    }
  }

  /** Joining two lower-case words with `_`, then replacing `_` by a space,
      joins them with a space. */
  lemma {:induction false} SpacedWords(first: string, second: string)
    requires forall i | 0 <= i < |first| :: IsLower(first[i])
    ensures ReplaceChar(first + "_" + second, '_', ' ') == first + " " + ReplaceChar(second, '_', ' ')
    decreases |first|
  {
    if first == [] {
      assert first + "_" + second == ['_'] + second;
    } else {
      assert first + "_" + second == [first[0]] + (first[1..] + "_" + second);
      SpacedWords(first[1..], second);
    }
  }

  /** Two lower-case words joined by `_` give both words capitalised, with a
      space between them. */
  lemma TwoWordHeading(first: string, second: string)
    requires IsLowerWord(first) && IsLowerWord(second)
    ensures Heading(first + "_" + second) == Capitalized(first) + " " + Capitalized(second)
  {
    assert ReplaceChar(first + "_" + second, '_', ' ') == first + " " + second by {
      SpacedWords(first, second);
      assert ReplaceChar(second, '_', ' ') == second;
    }
    TitleOfTwoWords(first, second);
  }

  /** The words of the four output names. */
  lemma DestinationWord()
    ensures IsLowerWord("destination") && Capitalized("destination") == "Destination"
  {
  }

  lemma GuideWord()
    ensures IsLowerWord("guide") && Capitalized("guide") == "Guide"
  {
  }

  lemma FlightWord()
    ensures IsLowerWord("flight") && Capitalized("flight") == "Flight"
  {
  }

  lemma OptionsWord()
    ensures IsLowerWord("options") && Capitalized("options") == "Options"
  {
  }

  lemma HotelWord()
    ensures IsLowerWord("hotel") && Capitalized("hotel") == "Hotel"
  {
  }

  lemma RecommendationsWord()
    ensures IsLowerWord("recommendations") && Capitalized("recommendations") == "Recommendations"
  {
  }

  lemma ItineraryWord()
    ensures IsLowerWord("itinerary") && Capitalized("itinerary") == "Itinerary"
  {
  }

  /** The headings of the four output names. Each name is written as its two
      words joined by `_`, the form `TwoWordHeading` speaks about. */
  lemma DestinationGuideHeading()
    ensures Heading("destination" + "_" + "guide") == "Destination" + " " + "Guide"
  {
    DestinationWord();
    GuideWord();
    TwoWordHeading("destination", "guide");
  }

  lemma FlightOptionsHeading()
    ensures Heading("flight" + "_" + "options") == "Flight" + " " + "Options"
  {
    FlightWord();
    OptionsWord();
    TwoWordHeading("flight", "options");
  }

  lemma HotelRecommendationsHeading()
    ensures Heading("hotel" + "_" + "recommendations") == "Hotel" + " " + "Recommendations"
  {
    HotelWord();
    RecommendationsWord();
    TwoWordHeading("hotel", "recommendations");
  }

  lemma ItineraryRecommendationsHeading()
    ensures Heading("itinerary" + "_" + "recommendations") == "Itinerary" + " " + "Recommendations"
  {
    ItineraryWord();
    RecommendationsWord();
    TwoWordHeading("itinerary", "recommendations");
  }

  /** The headings of the four keys as `run` writes them. */
  lemma DestinationGuideKeyHeading()
    ensures Heading("destination_guide") == "Destination Guide"
  {
    assert "destination_guide" == "destination" + "_" + "guide";
    DestinationGuideHeading();
    assert "Destination" + " " + "Guide" == "Destination Guide";
  }

  lemma FlightOptionsKeyHeading()
    ensures Heading("flight_options") == "Flight Options"
  {
    assert "flight_options" == "flight" + "_" + "options";
    FlightOptionsHeading();
    assert "Flight" + " " + "Options" == "Flight Options";
  }

  lemma HotelRecommendationsKeyHeading()
    ensures Heading("hotel_recommendations") == "Hotel Recommendations"
  {
    assert "hotel_recommendations" == "hotel" + "_" + "recommendations";
    HotelRecommendationsHeading();
    assert "Hotel" + " " + "Recommendations" == "Hotel Recommendations";
  }

  lemma ItineraryRecommendationsKeyHeading()
    ensures Heading("itinerary_recommendations") == "Itinerary Recommendations"
  {
    assert "itinerary_recommendations" == "itinerary" + "_" + "recommendations";
    ItineraryRecommendationsHeading();
    assert "Itinerary" + " " + "Recommendations" == "Itinerary Recommendations";
  }

  /** The draft paths are never final output paths, so the clean-up and the
      finalization of `run` leave the drafts alone. */
  lemma DraftsAreNotOutputs()
    ensures forall p | p in DraftPaths() :: p !in Paths(OutputEntries)
  {
  }

  /** The four drafts, as `__init__` names them. */
  function DraftPaths(): seq<Path>
  {
    [TempOutputDir + "/temp_destination_guide.md",
     TempOutputDir + "/temp_flight_options.md",
     TempOutputDir + "/temp_hotel_recommendations.md",
     TempOutputDir + "/temp_itinerary_recommendations.md"]
  }

  class TravelPlanningCrew {
    const trip: TripParameters
    const tempOutputDir: Path
    const tempDestinationFile: Path
    const tempFlightFile: Path
    const tempHotelFile: Path
    const tempItineraryFile: Path

    /** The drafts in the order `__init__` writes them. */
    function TempFiles(): seq<Path>
    {
      [tempDestinationFile, tempFlightFile, tempHotelFile, tempItineraryFile]
    }

    /** `__init__`: keeps the parameters and writes the placeholder into each
        of the four drafts. */
    constructor (trip: TripParameters, fs: FileSystem)
      modifies fs
      ensures this.trip == trip && tempOutputDir == TempOutputDir
      ensures TempFiles() == DraftPaths()
      ensures fs.files == WithDrafts(old(fs.files), TempFiles())
    {
      this.trip := trip;
      tempOutputDir := TempOutputDir;
      tempDestinationFile := TempOutputDir + "/temp_destination_guide.md";
      tempFlightFile := TempOutputDir + "/temp_flight_options.md";
      tempHotelFile := TempOutputDir + "/temp_hotel_recommendations.md";
      tempItineraryFile := TempOutputDir + "/temp_itinerary_recommendations.md";
      new;
      WriteDrafts(fs, TempFiles());
    }

    /** The loop of `__init__`: writes the placeholder into every draft. */
    static method WriteDrafts(fs: FileSystem, drafts: seq<Path>)
      modifies fs
      ensures fs.files == WithDrafts(old(fs.files), drafts)
    {
      for i := 0 to |drafts|
        invariant fs.files == WithDrafts(old(fs.files), drafts[..i])
      {
        fs.Create(drafts[i]);
        fs.Append(drafts[i], DraftPlaceholder);
        assert [] + DraftPlaceholder == DraftPlaceholder;
        assert drafts[..i + 1][..i] == drafts[..i];
      }
      assert drafts[..|drafts|] == drafts;
    }

    /** The `days` of `create_tasks`; None where `strptime` raises. */
    function ItineraryDays(): Option<int>
    {
      TripDays(trip.outboundDate, trip.returnDate)
    }

    /** The clean-up loop of `run`: deletes every output of `entries` that
        exists. */
    static method ClearOutputs(fs: FileSystem, entries: seq<(string, Path)>)
      modifies fs
      ensures fs.files == Cleared(old(fs.files), Paths(entries))
    {
      var paths := Paths(entries);
      for i := 0 to |paths|
        invariant fs.files == Cleared(old(fs.files), paths[..i])
      {
        if fs.Exists(paths[i]) {
          fs.Remove(paths[i]);
        }
        assert paths[..i + 1] == paths[..i] + [paths[i]];
      }
      assert paths[..|paths|] == paths;
    }

    /** The body of the finalization loop: open the output for writing and
        write the notice in three parts. */
    static method WriteNotice(fs: FileSystem, name: string, path: Path)
      modifies fs
      ensures fs.files == old(fs.files)[path := FailureNotice(name)]
    {
      fs.Create(path);
      fs.Append(path, "# " + Heading(name) + "\n\n");
      fs.Append(path, "Sorry, there was an issue generating this content. ");
      fs.Append(path, "Please try again or adjust your parameters.");
      NoticeWrittenInParts(name);
    }

    /** The finalization loop of `run`: a missing or empty output of `entries`
        gets the failure notice of its name. */
    static method FinalizeOutputs(fs: FileSystem, entries: seq<(string, Path)>)
      modifies fs
      ensures fs.files == Finalized(old(fs.files), entries)
    {
      for i := 0 to |entries|
        invariant fs.files == Finalized(old(fs.files), entries[..i])
      {
        var (name, path) := entries[i];
        assert Finalized(old(fs.files), entries[..i + 1])
            == FinalizeStep(Finalized(old(fs.files), entries[..i]), (name, path)) by {
          assert entries[..i + 1][..i] == entries[..i];
          assert entries[..i + 1][i] == (name, path);
        }
        if !fs.Exists(path) || fs.Size(path) == 0 {
          WriteNotice(fs, name, path);
        }
      }
      assert entries[..|entries|] == entries;
    }

    /** `run`: clean up, build the tasks (which computes `days` and raises on
        a bad date), let the crew rewrite the file table, finalize, and return
        the output dictionary. */
    method Run(fs: FileSystem, kickoff: (int, Table) -> Table) returns (result: Option<map<string, Path>>)
      modifies fs
      ensures result.Some? <==> ItineraryDays().Some?
      ensures result.None? ==> fs.files == Cleared(old(fs.files), Paths(OutputEntries))
      ensures result.Some? ==> result.value == OutputFiles()
      ensures result.Some? ==>
        fs.files == Finalized(kickoff(ItineraryDays().value, Cleared(old(fs.files), Paths(OutputEntries))), OutputEntries)
      ensures result.Some? ==> forall name | name in result.value ::
        result.value[name] in fs.files && fs.files[result.value[name]] != []
    {
      var outputs := OutputEntries;
      ClearOutputs(fs, outputs);
      var days := ItineraryDays();
      if days.None? {
        return None;
      }
      fs.files := kickoff(days.value, fs.files);
      ghost var leftByCrew := fs.files;
      FinalizeOutputs(fs, outputs);
      result := Some(OutputFiles());
      OutputsFilled(leftByCrew);
    }
  }
}
