/**
 * The file names of a run's artifacts (`main.py`): the seed is made safe
 * for a file name by `sanitize_filename` (spaces become underscores, the
 * characters `<>:"/\|?*` are deleted, the result is cut to 50 characters),
 * and the CSV and the chart are named after that stem. The generator's
 * command-line entry repeats the same three steps inline for its default
 * CSV path.
 */
module Filenames {

  /** The length `sanitize_filename` cuts to. */
  const MaxStem: nat := 50

  /** A character the regular expression `[<>:"/\\|?*]` deletes. */
  predicate Forbidden(c: char) {
    c == '<' || c == '>' || c == ':' || c == '"' || c == '/' || c == '\\' || c == '|' || c == '?' || c == '*'
  }

  /** `text.replace(" ", "_")`. */
  function ReplaceSpaces(text: string): (r: string)
    ensures |r| == |text|
    ensures forall i :: 0 <= i < |text| ==> r[i] == (if text[i] == ' ' then '_' else text[i])
  {
    seq(|text|, i requires 0 <= i < |text| => if text[i] == ' ' then '_' else text[i])
  }

  /** `re.sub(r'[<>:"/\\|?*]', '', text)`: the characters that are not
      forbidden, in their order. */
  function DeleteForbidden(text: string): (r: string)
    ensures |r| <= |text|
    ensures forall i :: 0 <= i < |r| ==> !Forbidden(r[i])
    ensures forall c :: c in r <==> c in text && !Forbidden(c)
  {
    if text == [] then []
    else if Forbidden(text[0]) then DeleteForbidden(text[1..])
    else [text[0]] + DeleteForbidden(text[1..])
  }

  /** On one character, the deletion keeps it exactly when it is not
      forbidden. */
  lemma DeleteForbiddenChar(c: char)
    ensures DeleteForbidden([c]) == if Forbidden(c) then [] else [c]
  {
    assert [c][1..] == [];
  }

  /** The deletion works on each part of a string on its own, so the kept
      characters stay in their order and keep their multiplicity. */
  lemma {:induction false} DeleteForbiddenConcat(a: string, b: string)
    ensures DeleteForbidden(a + b) == DeleteForbidden(a) + DeleteForbidden(b)
  {
    if a == [] {
      assert a + b == b;
    } else {
      assert (a + b)[0] == a[0];
      assert (a + b)[1..] == a[1..] + b;
      DeleteForbiddenConcat(a[1..], b);
    }
  }

  /** The two rewriting steps, before the cut. */
  function Clean(text: string): string {
    DeleteForbidden(ReplaceSpaces(text))
  }

  /** A string that `sanitize_filename` leaves alone: no space, nothing
      forbidden, at most 50 characters. */
  predicate Safe(s: string) {
    |s| <= MaxStem && forall i :: 0 <= i < |s| ==> s[i] != ' ' && !Forbidden(s[i])
  }

  /** `sanitize_filename`: clean the text, then keep its first 50
      characters when it is longer. */
  function SanitizeFilename(text: string): (r: string)
    ensures Safe(r)
    ensures |r| == if |Clean(text)| > MaxStem then MaxStem else |Clean(text)|
    ensures r == Clean(text)[..|r|]
  {
    var cleaned := Clean(text);
    CleanHasNoSpace(text);
    if |cleaned| > MaxStem then cleaned[..MaxStem] else cleaned
  }

  /** Cleaning leaves no space: every space became an underscore. */
  lemma CleanHasNoSpace(text: string)
    ensures forall i :: 0 <= i < |Clean(text)| ==> Clean(text)[i] != ' '
  {
    var replaced := ReplaceSpaces(text);
    assert ' ' !in replaced;
    forall i | 0 <= i < |Clean(text)|
      ensures Clean(text)[i] != ' '
    {
      assert Clean(text)[i] in Clean(text);
    }
  }

  // ---------------------------------------------------------------------------
  // An independent, one-pass definition
  // ---------------------------------------------------------------------------

  /** What one character of the input becomes in the stem. */
  function CleanChar(c: char): string {
    if c == ' ' then "_" else if Forbidden(c) then "" else [c]
  }

  /** The input rewritten character by character. */
  function CleanOnePass(text: string): string {
    if text == [] then "" else CleanChar(text[0]) + CleanOnePass(text[1..])
  }

  /** Replacing then deleting is the same as rewriting each character on its
      own: the space's underscore is never deleted, and no other character
      is replaced. */
  lemma {:induction false} CleanIsOnePass(text: string)
    ensures Clean(text) == CleanOnePass(text)
  {
    if text != [] {
      var replaced := ReplaceSpaces(text);
      assert replaced == [replaced[0]] + ReplaceSpaces(text[1..]);
      assert DeleteForbidden(replaced) == CleanChar(text[0]) + Clean(text[1..]) by {
        assert replaced[0] == if text[0] == ' ' then '_' else text[0];
        assert replaced[1..] == ReplaceSpaces(text[1..]);
      }
      CleanIsOnePass(text[1..]);
    }
  }

  // ---------------------------------------------------------------------------
  // Properties of the sanitiser
  // ---------------------------------------------------------------------------

  /** Deleting from a string that holds nothing forbidden changes nothing. */
  lemma {:induction false} DeleteForbiddenNothing(s: string)
    requires forall i :: 0 <= i < |s| ==> !Forbidden(s[i])
    ensures DeleteForbidden(s) == s
  {
    if s != [] {
      DeleteForbiddenNothing(s[1..]);
    }
  }

  /** The sanitiser leaves a string alone exactly when it is already safe. */
  lemma SanitizeFixed(text: string)
    ensures SanitizeFilename(text) == text <==> Safe(text)
  {
    if Safe(text) {
      assert ReplaceSpaces(text) == text;
      DeleteForbiddenNothing(text);
    }
  }

  /** Sanitising twice is sanitising once. */
  lemma SanitizeIdempotent(text: string)
    ensures SanitizeFilename(SanitizeFilename(text)) == SanitizeFilename(text)
  {
    SanitizeFixed(SanitizeFilename(text));
  }

  /** The inline copy at the generator's command-line entry:
      `re.sub(..., seed.replace(" ", "_"))[:50]`, a slice that keeps the whole
      string when it is shorter. */
  function InlineSafeSeed(seed: string): (r: string)
    ensures |r| <= MaxStem
  {
    var cleaned := DeleteForbidden(ReplaceSpaces(seed));
    cleaned[..if |cleaned| < MaxStem then |cleaned| else MaxStem]
  }

  /** The inline copy computes the same stem as `sanitize_filename`. */
  lemma InlineSafeSeedIsSanitize(seed: string)
    ensures InlineSafeSeed(seed) == SanitizeFilename(seed)
  {
    var cleaned := Clean(seed);
    if |cleaned| <= MaxStem {
      assert cleaned[..|cleaned|] == cleaned;
    }
  }

  // ---------------------------------------------------------------------------
  // The artifact paths
  // ---------------------------------------------------------------------------

  const CsvSuffix: string := "_fanout.csv"
  const PngSuffix: string := "_sunburst.png"

  /** `os.path.join(directory, name)` for a name that does not start with
      `/`: a separator is added unless the directory is empty or already
      ends with one. */
  function JoinPath(directory: string, name: string): (p: string)
    ensures exists sep :: (sep == "" || sep == "/") && p == directory + sep + name
  {
    if directory == [] || directory[|directory| - 1] == '/' then
      assert directory + "" + name == directory + name;
      directory + name
    else directory + "/" + name
  }

  /** The CSV and chart paths of a run: `<stem>_fanout.csv` and
      `<stem>_sunburst.png` in the output directory. */
  function ArtifactPaths(outputDir: string, seed: string): (paths: (string, string))
  {
    var stem := SanitizeFilename(seed);
    (JoinPath(outputDir, stem + CsvSuffix), JoinPath(outputDir, stem + PngSuffix))
  }

  /** Both names joined to one directory share the same prefix, the
      directory with or without an added separator. */
  lemma JoinShared(directory: string, a: string, b: string)
    ensures exists prefix :: (prefix == directory || prefix == directory + "/")
              && JoinPath(directory, a) == prefix + a && JoinPath(directory, b) == prefix + b
  {
    var prefix := if directory == [] || directory[|directory| - 1] == '/' then directory else directory + "/";
    assert JoinPath(directory, a) == prefix + a;
    assert JoinPath(directory, b) == prefix + b;
  }

  /** The paths of the two artifacts of any stem share the directory
      prefix and the stem, and differ. */
  lemma PathsShareStem(directory: string, stem: string)
    ensures exists prefix ::
      && JoinPath(directory, stem + CsvSuffix) == prefix + stem + CsvSuffix
      && JoinPath(directory, stem + PngSuffix) == prefix + stem + PngSuffix
      && (prefix == directory || prefix == directory + "/")
    ensures JoinPath(directory, stem + CsvSuffix) != JoinPath(directory, stem + PngSuffix)
  {
    var csv := JoinPath(directory, stem + CsvSuffix);
    var png := JoinPath(directory, stem + PngSuffix);
    JoinShared(directory, stem + CsvSuffix, stem + PngSuffix);
    var prefix :| (prefix == directory || prefix == directory + "/")
      && csv == prefix + (stem + CsvSuffix) && png == prefix + (stem + PngSuffix);
    assert csv == prefix + stem + CsvSuffix;
    assert png == prefix + stem + PngSuffix;
    assert |csv| != |png|;
  }

  /** The two artifacts sit in the same directory under the same safe stem,
      and only their suffixes tell them apart. */
  lemma ArtifactsShareStem(outputDir: string, seed: string)
    ensures var (csv, png) := ArtifactPaths(outputDir, seed);
      exists prefix ::
        && csv == prefix + SanitizeFilename(seed) + CsvSuffix
        && png == prefix + SanitizeFilename(seed) + PngSuffix
        && (prefix == outputDir || prefix == outputDir + "/")
    ensures ArtifactPaths(outputDir, seed).0 != ArtifactPaths(outputDir, seed).1
  {
    PathsShareStem(outputDir, SanitizeFilename(seed));
  }

  /** The generator's default CSV path, `output/<stem>_fanout.csv`. */
  function DefaultCsvPath(seed: string): string {
    "output/" + InlineSafeSeed(seed) + CsvSuffix
  }

  /** The generator's default CSV path is the path the main entry writes its
      CSV to with the default output directory. */
  lemma DefaultCsvPathAgrees(seed: string)
    ensures DefaultCsvPath(seed) == ArtifactPaths("output", seed).0
  {
    InlineSafeSeedIsSanitize(seed);
    assert "output/" + InlineSafeSeed(seed) + CsvSuffix == "output" + "/" + (SanitizeFilename(seed) + CsvSuffix);
  }
}
