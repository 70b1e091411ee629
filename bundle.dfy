/** What app.py does with the dictionary `run` returns: `display_markdown_file`
    reads each output back, with retries, for its tab, and `create_zip_file`
    packs the outputs into the downloadable archive. */
module Bundle {
  import opened Wrappers
  import opened Text
  import opened FileTable
  import opened Crew

  /** `max_retries` of `display_markdown_file`. */
  const MaxRetries: nat := 3

  /** What one attempt of `display_markdown_file` sees: no file, a read that
      raised, or the text read. */
  datatype Attempt = Missing | ReadFailed | Contents(text: string)

  /** An attempt that ends the retries: the text read is not empty once
      stripped. */
  predicate Shows(a: Attempt)
  {
    a.Contents? && Strip(a.text) != []
  }

  /** The first attempt that shows something, if any. */
  function FirstShown(attempts: seq<Attempt>): (r: Option<nat>)
    ensures r.Some? ==> r.value < |attempts| && Shows(attempts[r.value])
    ensures r.Some? ==> forall j | 0 <= j < r.value :: !Shows(attempts[j])
    ensures r.None? ==> forall j | 0 <= j < |attempts| :: !Shows(attempts[j])
  {
    if attempts == [] then None
    else if Shows(attempts[0]) then Some(0)
    else match FirstShown(attempts[1..])
      case None => None
      case Some(i) => Some(i + 1)
  }

  /** An attempt that shows something, after attempts that did not, is the
      first one that shows. */
  lemma FirstShownIs(attempts: seq<Attempt>, i: nat)
    requires i < |attempts| && Shows(attempts[i])
    requires forall j | 0 <= j < i :: !Shows(attempts[j])
    ensures FirstShown(attempts) == Some(i)
  {
  }

  /** `display_markdown_file(file_path, default_content)`, given what each of
      its attempts sees. It returns the first text whose `strip()` is
      non-empty, as read, or else the default once all attempts are spent;
      `tries` counts the attempts made. */
  method DisplayMarkdownFile(attempts: seq<Attempt>, defaultContent: string)
    returns (content: string, ghost tries: nat)
    requires |attempts| == MaxRetries
    ensures 1 <= tries <= MaxRetries
    ensures FirstShown(attempts).Some? ==>
      tries == FirstShown(attempts).value + 1 && content == attempts[tries - 1].text
    ensures FirstShown(attempts).None? ==> tries == MaxRetries && content == defaultContent
    ensures Strip(defaultContent) != [] ==> Strip(content) != []
  {
    for attempt := 0 to MaxRetries
      invariant forall j | 0 <= j < attempt :: !Shows(attempts[j])
    {
      if attempts[attempt].Contents? && Strip(attempts[attempt].text) != [] {
        FirstShownIs(attempts, attempt);
        return attempts[attempt].text, attempt + 1;
      }
    }
    return defaultContent, MaxRetries;
  }

  /** Whatever the attempts see, the page shows something that is not blank
      when the default is not blank. */
  lemma DisplayedNotBlank(attempts: seq<Attempt>, defaultContent: string)
    requires !IsBlank(defaultContent)
    ensures var r := FirstShown(attempts);
      !IsBlank(if r.Some? then attempts[r.value].text else defaultContent)
  {
    StripEmptyIffBlank(defaultContent);
    var r := FirstShown(attempts);
    if r.Some? {
      StripEmptyIffBlank(attempts[r.value].text);
    }
  }

  /** The archive member `create_zip_file` writes for an output. */
  function MemberName(name: string): string
  {
    name + ".md"
  }

  /** The output name a member stands for. */
  function MemberOutput(member: string): string
  {
    if |member| >= 3 then member[..|member| - 3] else member
  }

  lemma MemberNameRoundTrip(name: string)
    ensures MemberOutput(MemberName(name)) == name
  {
    assert MemberName(name)[..|name|] == name;
  }

  /** The members of the archive `create_zip_file(result_files)` builds: one
      per output whose file exists, holding that file's bytes. */
  function ZipMembers(resultFiles: map<string, Path>, files: Table): (z: map<string, string>)
    ensures forall name | name in resultFiles && resultFiles[name] in files ::
      MemberName(name) in z && z[MemberName(name)] == files[resultFiles[name]]
    ensures forall member | member in z ::
      var name := MemberOutput(member);
      name in resultFiles && resultFiles[name] in files && member == MemberName(name)
  {
    assert forall a, b | MemberName(a) == MemberName(b) :: a == b by {
      forall a, b | MemberName(a) == MemberName(b) ensures a == b {
        MemberNameRoundTrip(a);
        MemberNameRoundTrip(b);
      }
    }
    map name | name in resultFiles && resultFiles[name] in files :: MemberName(name) := files[resultFiles[name]]
  }

  /** When every output's file exists and is non-empty, the archive holds one
      member per output and nothing else, each non-empty. */
  lemma ArchiveOfFilledOutputs(resultFiles: map<string, Path>, files: Table)
    requires forall name | name in resultFiles :: resultFiles[name] in files && files[resultFiles[name]] != []
    ensures var z := ZipMembers(resultFiles, files);
      && z.Keys == (set name | name in resultFiles :: MemberName(name))
      && forall name | name in resultFiles ::
           z[MemberName(name)] == files[resultFiles[name]] && z[MemberName(name)] != []
  {
    var z := ZipMembers(resultFiles, files);
    forall member | member in z
      ensures member in (set name | name in resultFiles :: MemberName(name))
    {
      var name := MemberOutput(member);
      assert name in resultFiles && member == MemberName(name);
    }
  }

  /** After `run`, the archive of the dictionary it returns holds the four
      outputs and nothing else, each non-empty and exactly the file on disk. */
  lemma ArchiveAfterRun(leftByCrew: Table)
    ensures var files := Finalized(leftByCrew, OutputEntries);
      var z := ZipMembers(OutputFiles(), files);
      && z.Keys == (set name | name in OutputFiles() :: MemberName(name))
      && forall name | name in OutputFiles() ::
           z[MemberName(name)] == files[OutputFiles()[name]] && z[MemberName(name)] != []
  {
    OutputsFilled(leftByCrew);
    ArchiveOfFilledOutputs(OutputFiles(), Finalized(leftByCrew, OutputEntries));
  }
}
