/**
 * The upload form (pages/AddVideoPage.tsx): validation, the tag splitter,
 * the markdown document and the video object built on submit, and the path
 * the document is stored under. The page's `createSlug` is the same text as
 * the catalog's and is modelled once, by `Slug.CreateSlug`.
 */
module AddVideo {
  import opened Wrappers
  import opened Text
  import opened Seqs
  import Slug
  import opened Videos

  /** The form state. */
  datatype FormData = FormData(
    title: String,
    videoUrl: String,
    thumbnail: String,
    duration: String,
    tags: String,
    description: String,
    actress: String)

  /** The actresses the category selector offers. */
  const Actresses: seq<String> := ["Melissa Stratton", "Nikoleta", "Sasha E"]

  /** The form as it starts, and as it is reset to after a successful upload. */
  const DefaultForm := FormData("", "", "", "", "", "", "Melissa Stratton")

  /** The tests `validateForm` makes, in the order it makes them. */
  datatype FormCheck = TitleCheck | VideoUrlCheck | ThumbnailCheck | DurationCheck | ActressCheck

  const CheckOrder := [TitleCheck, VideoUrlCheck, ThumbnailCheck, DurationCheck, ActressCheck]

  predicate Passes(f: FormData, c: FormCheck) {
    match c
    case TitleCheck => Trim(f.title) != []
    case VideoUrlCheck => Trim(f.videoUrl) != []
    case ThumbnailCheck => Trim(f.thumbnail) != []
    case DurationCheck => Trim(f.duration) != []
    case ActressCheck => f.actress != []
  }

  function Message(c: FormCheck): String {
    match c
    case TitleCheck => "Title is required"
    case VideoUrlCheck => "Video URL is required"
    case ThumbnailCheck => "Thumbnail URL is required"
    case DurationCheck => "Duration is required"
    case ActressCheck => "Actress selection is required"
  }

  /** The position of the first check in `checks` that `f` fails, if any. */
  function FirstFailure(f: FormData, checks: seq<FormCheck>): (r: Option<nat>)
    ensures r.Some? ==> r.value < |checks|
  {
    if checks == [] then None
    else if !Passes(f, checks[0]) then Some(0)
    else
      match FirstFailure(f, checks[1..])
      case None => None
      case Some(k) => Some(k + 1)
  }

  /** `FirstFailure` finds the failing check that no failing check precedes, and nothing when all pass. */
  lemma {:induction false} FirstFailureSpec(f: FormData, checks: seq<FormCheck>)
    ensures FirstFailure(f, checks).None? <==> forall j :: 0 <= j < |checks| ==> Passes(f, checks[j])
    ensures forall k :: 0 <= k < |checks| ==>
      (FirstFailure(f, checks) == Some(k) <==> !Passes(f, checks[k]) && forall j :: 0 <= j < k ==> Passes(f, checks[j]))
  {
    if checks != [] {
      FirstFailureSpec(f, checks[1..]);
      var tail := checks[1..];
      assert forall j :: 0 < j < |checks| ==> checks[j] == tail[j - 1];
      if Passes(f, checks[0]) {
        forall k | 0 < k < |checks|
          ensures (FirstFailure(f, checks) == Some(k) <==> !Passes(f, checks[k]) && forall j :: 0 <= j < k ==> Passes(f, checks[j]))
        {
          assert (forall j :: 0 <= j < k ==> Passes(f, checks[j])) <==> (forall j :: 0 <= j < k - 1 ==> Passes(f, tail[j]));
        }
      }
    }
  }

  /**
   * `validateForm()`: the message of the first test in `CheckOrder` that
   * fails, `None` when all pass.
   */
  function ValidateForm(f: FormData): (r: Option<String>)
    ensures r.None? <==> (Trim(f.title) != [] && Trim(f.videoUrl) != [] && Trim(f.thumbnail) != []
                          && Trim(f.duration) != [] && f.actress != [])
  {
    if Trim(f.title) == [] then Some("Title is required")
    else if Trim(f.videoUrl) == [] then Some("Video URL is required")
    else if Trim(f.thumbnail) == [] then Some("Thumbnail URL is required")
    else if Trim(f.duration) == [] then Some("Duration is required")
    else if f.actress == [] then Some("Actress selection is required")
    else None
  }

  /** `validateForm` reports the first test in `CheckOrder` that fails, and nothing when all pass. */
  lemma ValidateFormReportsFirstFailure(f: FormData)
    ensures ValidateForm(f) == match FirstFailure(f, CheckOrder)
                               case None => None
                               case Some(k) => Some(Message(CheckOrder[k]))
  {
    var c := CheckOrder;
    FirstFailureSpec(f, c);
    if !Passes(f, c[0]) {
      assert FirstFailure(f, c) == Some(0);
    } else if !Passes(f, c[1]) {
      assert FirstFailure(f, c) == Some(1);
    } else if !Passes(f, c[2]) {
      assert FirstFailure(f, c) == Some(2);
    } else if !Passes(f, c[3]) {
      assert FirstFailure(f, c) == Some(3);
    } else if !Passes(f, c[4]) {
      assert FirstFailure(f, c) == Some(4);
    } else {
      assert FirstFailure(f, c) == None;
    }
  }

  /** The defaults fail only for want of a title. */
  lemma DefaultFormNeedsTitle()
    ensures ValidateForm(DefaultForm) == Some(Message(TitleCheck))
  {
    assert Trim(DefaultForm.title) == [];
  }

  /** `tagsArray`: the tag input split at commas, trimmed, blanks dropped. */
  function TagsArray(f: FormData): seq<String> {
    SplitTags(f.tags)
  }

  /** `description || '.'` */
  function DescriptionOrDot(description: String): (r: String)
    ensures r != []
    ensures description != [] ==> r == description
  {
    if description == [] then "." else description
  }

  /** The values the markdown template interpolates, as the form supplies them. */
  datatype DocFields = DocFields(
    title: String,
    videoUrl: String,
    thumbnail: String,
    duration: String,
    tags: String,
    description: String)

  function DocFieldsOf(f: FormData): DocFields {
    DocFields(f.title, f.videoUrl, f.thumbnail, f.duration, Join(TagsArray(f), ", "), DescriptionOrDot(f.description))
  }

  /** The lines of the markdown template, in order; the second one is blank. */
  function Template(d: DocFields): seq<String> {
    [ TitlePrefix + d.title,
      "",
      VideoUrlPrefix + " " + d.videoUrl,
      ThumbnailPrefix + " " + d.thumbnail,
      DurationPrefix + " " + d.duration,
      TagsPrefix + " " + d.tags,
      DescriptionPrefix + " " + d.description ]
  }

  function MarkdownLines(f: FormData): seq<String> {
    Template(DocFieldsOf(f))
  }

  /** `markdownContent`: the template's lines joined by newlines. */
  function BuildMarkdown(f: FormData): String {
    Join(MarkdownLines(f), "\n")
  }

  /** `videoObject`, with the current date passed in as `today`. */
  function BuildVideoObject(f: FormData, today: String): (v: Video)
    ensures v.slug == Slug.CreateSlug(f.title) && Slug.IsSlug(v.slug)
    ensures v.category == f.actress && v.uploadDate == today
    ensures v.description != [] && (f.description != [] ==> v.description == f.description)
    ensures forall i :: 0 <= i < |v.tags| ==> IsTag(v.tags[i])
  {
    SplitTagsAreTags(f.tags);
    Video(Slug.CreateSlug(f.title), f.title, today, f.thumbnail, f.videoUrl, f.duration,
          TagsArray(f), DescriptionOrDot(f.description), f.actress)
  }

  /** `s.replace(' ', '-')` with a string pattern: only the first occurrence of `c` is replaced. */
  function ReplaceFirst(s: String, c: char, d: char): (r: String)
    ensures |r| == |s|
    ensures c !in s ==> r == s
    ensures c in s ==> exists i :: 0 <= i < |s| && s[i] == c && (forall j :: 0 <= j < i ==> s[j] != c)
                                   && r == s[i := d]
  {
    if s == [] then []
    else if s[0] == c then [d] + s[1..]
    else
      var rest := ReplaceFirst(s[1..], c, d);
      assert c in s[1..] ==> exists i :: 0 <= i < |s| && s[i] == c && (forall j :: 0 <= j < i ==> s[j] != c)
                                   && [s[0]] + rest == s[i := d] by {
        if c in s[1..] {
          var i :| 0 <= i < |s[1..]| && s[1..][i] == c && (forall j :: 0 <= j < i ==> s[1..][j] != c)
                   && rest == s[1..][i := d];
          assert s[i + 1] == c;
          assert forall j :: 0 <= j < i + 1 ==> s[j] != c by {
            forall j | 0 <= j < i + 1 ensures s[j] != c {
              if j > 0 { assert s[j] == s[1..][j - 1]; }
            }
          }
          assert [s[0]] + rest == s[i + 1 := d];
        }
      }
      [s[0]] + rest
  }

  /** The folder of an actress: `lib/data/` and her name with its first space made a hyphen. */
  function FolderPath(actress: String): String {
    "lib/data/" + ReplaceFirst(actress, ' ', '-') + "/"
  }

  /** `fullPath`: the folder followed by `${slug}.md`. */
  function StoragePath(f: FormData): String {
    FolderPath(f.actress) + Slug.CreateSlug(f.title) + ".md"
  }

  /**
   * The storage path is "lib/data/", the actress with only her first space
   * replaced, "/", the slug of the title and ".md", so a two-word actress
   * name gives a hyphenated folder.
   */
  lemma StoragePathShape(f: FormData)
    ensures var folder := ReplaceFirst(f.actress, ' ', '-');
      && StoragePath(f) == "lib/data/" + folder + "/" + Slug.CreateSlug(f.title) + ".md"
      && |folder| == |f.actress|
      && (' ' !in f.actress ==> folder == f.actress)
      && forall i :: 0 <= i < |f.actress| && f.actress[i] != ' ' ==> folder[i] == f.actress[i]
  {
    var folder := ReplaceFirst(f.actress, ' ', '-');
    if ' ' in f.actress {
      var i :| 0 <= i < |f.actress| && f.actress[i] == ' ' && (forall j :: 0 <= j < i ==> f.actress[j] != ' ')
               && folder == f.actress[i := '-'];
    }
  }

  /** What submitting the form leads to: an error message, or a document to upload and the object built beside it. */
  datatype Submission =
    | Rejected(message: String)
    | Upload(path: String, markdown: String, video: Video)

  /** `handleSubmit`, up to the upload: validation first, then the document, its object and its path. */
  function Submit(f: FormData, today: String): (r: Submission)
    ensures r.Rejected? <==> ValidateForm(f).Some?
    ensures r.Rejected? ==> r.message == ValidateForm(f).value
    ensures r.Upload? ==> r.video.slug == Slug.CreateSlug(f.title) && r.video.category == f.actress
                          && r.path == StoragePath(f) && r.markdown == BuildMarkdown(f)
  {
    match ValidateForm(f)
    case Some(message) => Rejected(message)
    case None => Upload(StoragePath(f), BuildMarkdown(f), BuildVideoObject(f, today))
  }

  // ----- The serialiser and the parser agree -----

  /** The pieces of `parts.join(sep)` are its parts' characters and the separator's. */
  lemma {:induction false} JoinAvoids(parts: seq<String>, sep: String, c: char)
    requires c !in sep
    requires forall k :: 0 <= k < |parts| ==> c !in parts[k]
    ensures c !in Join(parts, sep)
  {
    if |parts| > 1 {
      JoinAvoids(parts[1..], sep, c);
    }
  }

  lemma {:induction false} SplitAvoids(s: String, sep: char, c: char)
    requires c !in s
    ensures forall k :: 0 <= k < |Split(s, sep)| ==> c !in Split(s, sep)[k]
  {
    if s != [] {
      SplitAvoids(s[1..], sep, c);
    }
  }

  /** A character missing from the tag input is missing from every tag. */
  lemma SplitTagsAvoids(s: String, c: char)
    requires c !in s
    ensures forall k :: 0 <= k < |SplitTags(s)| ==> c !in SplitTags(s)[k]
  {
    var parts := Split(s, ',');
    SplitAvoids(s, ',', c);
    var pieces := TrimAll(parts);
    forall k | 0 <= k < |pieces| ensures c !in pieces[k] {
      TrimAvoids(parts[k], c);
    }
    FilterAll(pieces, NonEmpty, t => c !in t);
  }

  /** Splitting a joined list of separator-free strings gives the list back. */
  lemma {:induction false} SplitJoin(parts: seq<String>, c: char)
    requires |parts| >= 1
    requires forall k :: 0 <= k < |parts| ==> c !in parts[k]
    ensures Split(Join(parts, [c]), c) == parts
  {
    if |parts| == 1 {
      SplitWithoutSeparator(parts[0], c);
    } else {
      var rest := Join(parts[1..], [c]);
      SplitJoin(parts[1..], c);
      SplitAtSeparator(parts[0], c, rest);
      assert Join(parts, [c]) == parts[0] + [c] + rest;
      assert [parts[0]] + parts[1..] == parts;
    }
  }

  /** Each string of `parts` with `p` in front. */
  function Prefixed(parts: seq<String>, p: String): (r: seq<String>)
    ensures |r| == |parts|
    ensures forall i :: 0 <= i < |parts| ==> r[i] == p + parts[i]
  {
    seq(|parts|, i requires 0 <= i < |parts| => p + parts[i])
  }

  lemma JoinConsPrefix(p: String, x: String, rest: seq<String>, sep: String)
    ensures p + Join([x] + rest, sep) == Join([p + x] + rest, sep)
  {
    var a, b := [x] + rest, [p + x] + rest;
    assert a[1..] == rest && b[1..] == rest;
    if rest != [] {
      assert p + (x + sep + Join(rest, sep)) == (p + x) + sep + Join(rest, sep);
    }
  }

  /** `join(', ')` is `join(',')` with a space in front of every part but the first. */
  lemma {:induction false} JoinCommaSpace(parts: seq<String>)
    requires |parts| >= 1
    ensures Join(parts, ", ") == Join([parts[0]] + Prefixed(parts[1..], " "), ",")
  {
    var q := [parts[0]] + Prefixed(parts[1..], " ");
    if |parts| == 1 {
      assert q == [parts[0]];
    } else {
      var tail := parts[1..];
      JoinCommaSpace(tail);
      var p2 := Prefixed(tail[1..], " ");
      assert q[1..] == [" " + tail[0]] + p2;
      JoinConsPrefix(" ", tail[0], p2, ",");
      assert Join(q, ",") == parts[0] + "," + (" " + Join([tail[0]] + p2, ","));
      assert Join(parts, ", ") == parts[0] + ", " + Join([tail[0]] + p2, ",");
    }
  }

  lemma NotInCons(c: char, d: char, s: String)
    requires c != d && c !in s
    ensures c !in [d] + s
  {
  }

  /** The pieces `join(', ')` leaves between its commas: every tag but the first has a space in front. */
  function CommaPieces(tags: seq<String>): seq<String>
    requires tags != []
  {
    [tags[0]] + Prefixed(tags[1..], " ")
  }

  lemma CommaPiecesAvoid(tags: seq<String>, c: char)
    requires tags != [] && c != ' '
    requires forall i :: 0 <= i < |tags| ==> c !in tags[i]
    ensures forall k :: 0 <= k < |CommaPieces(tags)| ==> c !in CommaPieces(tags)[k]
  {
    var pieces := CommaPieces(tags);
    forall k | 0 <= k < |pieces| ensures c !in pieces[k] {
      if k > 0 {
        assert pieces[k] == [' '] + tags[k];
        NotInCons(c, ' ', tags[k]);
      }
    }
  }

  lemma TrimCommaPieces(tags: seq<String>)
    requires tags != []
    requires forall i :: 0 <= i < |tags| ==> IsTrimmed(tags[i])
    ensures TrimAll(CommaPieces(tags)) == tags
  {
    var pieces := CommaPieces(tags);
    var trimmed := TrimAll(pieces);
    forall k | 0 <= k < |pieces| ensures trimmed[k] == tags[k] {
      if k > 0 {
        assert pieces[k] == [' '] + tags[k];
        TrimSkipsLeadingSpace(' ', tags[k]);
      }
      TrimOfTrimmed(tags[k]);
    }
  }

  /** Tags the splitter could have produced survive `join(', ')` followed by the splitter. */
  lemma SplitTagsOfJoin(tags: seq<String>)
    requires forall i :: 0 <= i < |tags| ==> IsTag(tags[i])
    ensures SplitTags(Join(tags, ", ")) == tags
  {
    if tags == [] {
      assert Split([], ',') == [[]];
      assert TrimAll([[]]) == [[]];
    } else {
      JoinCommaSpace(tags);
      CommaPiecesAvoid(tags, ',');
      SplitJoin(CommaPieces(tags), ',');
      TrimCommaPieces(tags);
      FilterKeepsAll(tags, NonEmpty);
    }
  }

  /** A list of trimmed, non-empty strings joins into a trimmed, non-empty string. */
  lemma {:induction false} JoinTrimmed(parts: seq<String>, sep: String)
    requires |parts| >= 1
    requires forall i :: 0 <= i < |parts| ==> parts[i] != [] && IsTrimmed(parts[i])
    ensures Join(parts, sep) != [] && IsTrimmed(Join(parts, sep))
  {
    if |parts| > 1 {
      JoinTrimmed(parts[1..], sep);
      var rest := Join(parts[1..], sep);
      var j := parts[0] + sep + rest;
      assert j[0] == parts[0][0] && j[|j| - 1] == rest[|rest| - 1];
    }
  }

  /** A line that starts with a field label other than the title's is parsed as that field. */
  lemma ClassifyFieldLine(line: String, k: LineKind)
    requires k != TitleLine && KindLabel(k) != []
    requires StartsWith(line, KindLabel(k))
    ensures Classify(line) == k
  {
    var n := |KindLabel(k)|;
    assert line[..n][0] == line[0] && line[..n][2] == line[2] && line[..n][3] == line[3];
  }

  lemma ParseLinesFrom(d: Draft, s: seq<String>, k: nat)
    requires k < |s|
    ensures ParseLines(d, s[k..]) == ParseLines(Step(d, s[k]), s[k + 1..])
  {
    assert s[k..][0] == s[k] && s[k..][1..] == s[k + 1..];
  }

  /** The fields are single lines with no surrounding whitespace, as a form filled in by hand usually is. */
  predicate SingleLineTrimmed(f: FormData) {
    && IsTrimmed(f.title) && '\n' !in f.title
    && IsTrimmed(f.videoUrl) && '\n' !in f.videoUrl
    && IsTrimmed(f.thumbnail) && '\n' !in f.thumbnail
    && IsTrimmed(f.duration) && '\n' !in f.duration
    && IsTrimmed(f.description) && '\n' !in f.description
    && '\n' !in f.tags
  }

  /** The fields `validateForm` insists on are filled in. */
  predicate RequiredPresent(f: FormData) {
    f.title != [] && f.videoUrl != [] && f.thumbnail != [] && f.duration != []
  }

  /** For a form of single trimmed lines, `validateForm` accepts exactly when the required fields and the actress are filled in. */
  lemma ValidateSingleLineForm(f: FormData)
    requires SingleLineTrimmed(f)
    ensures ValidateForm(f).None? <==> RequiredPresent(f) && f.actress != []
  {
    TrimOfTrimmed(f.title);
    TrimOfTrimmed(f.videoUrl);
    TrimOfTrimmed(f.thumbnail);
    TrimOfTrimmed(f.duration);
  }


  /** A character missing from a label and a value is missing from `label + " " + value`. */
  lemma LabelledAvoids(prefix: String, value: String, c: char)
    requires c !in prefix && c !in value && c != ' '
    ensures c !in prefix + " " + value
  {
  }

  /** Every value of the template is one line with no surrounding whitespace. */
  predicate SingleLines(d: DocFields) {
    && IsTrimmed(d.title) && '\n' !in d.title
    && IsTrimmed(d.videoUrl) && '\n' !in d.videoUrl
    && IsTrimmed(d.thumbnail) && '\n' !in d.thumbnail
    && IsTrimmed(d.duration) && '\n' !in d.duration
    && IsTrimmed(d.tags) && '\n' !in d.tags
    && IsTrimmed(d.description) && '\n' !in d.description
  }

  /** The joined template splits back into its lines. */
  lemma SplitTemplate(d: DocFields)
    requires SingleLines(d)
    ensures Split(Join(Template(d), "\n"), '\n') == Template(d)
  {
    var lines := Template(d);
    assert '\n' !in lines[0] by { assert lines[0] == ['#', ' '] + d.title; }
    assert '\n' !in lines[1];
    LabelledAvoids(VideoUrlPrefix, d.videoUrl, '\n');
    LabelledAvoids(ThumbnailPrefix, d.thumbnail, '\n');
    LabelledAvoids(DurationPrefix, d.duration, '\n');
    LabelledAvoids(TagsPrefix, d.tags, '\n');
    LabelledAvoids(DescriptionPrefix, d.description, '\n');
    SplitJoin(lines, '\n');
  }

  /** The title line survives `trim` and gives back the title. */
  lemma TitleLineTrimmed(title: String)
    requires title != [] && IsTrimmed(title)
    ensures Trim(TitlePrefix + title) == TitlePrefix + title
    ensures Classify(TitlePrefix + title) == TitleLine
    ensures Rest(TitlePrefix + title, |TitlePrefix|) == title
  {
    var line := TitlePrefix + title;
    assert line[0] == '#' && line[|line| - 1] == title[|title| - 1];
    TrimOfTrimmed(line);
    assert line[..2] == TitlePrefix;
  }

  /** A field line as `trim` leaves it: the label, then a space and the value unless the value is empty. */
  function FieldLine(k: LineKind, value: String): String {
    if value == [] then KindLabel(k) else KindLabel(k) + " " + value
  }

  /** `trim` cuts the space after a label when no value follows it, and otherwise changes nothing. */
  lemma TrimLabelled(k: LineKind, value: String)
    requires KindLabel(k) != [] && !IsSpace(KindLabel(k)[0]) && !IsSpace(KindLabel(k)[|KindLabel(k)| - 1])
    requires IsTrimmed(value)
    ensures Trim(KindLabel(k) + " " + value) == FieldLine(k, value)
  {
    var prefix := KindLabel(k);
    var line := prefix + " " + value;
    if value == [] {
      assert line == prefix + [' '];
      TrimOfNonSpaceStart(line);
      assert line[..|line| - 1] == prefix;
      TrimEndNoop(prefix);
    } else {
      assert line[0] == prefix[0] && line[|line| - 1] == value[|value| - 1];
      TrimOfTrimmed(line);
    }
  }

  /** The parser reads a field line as its field, and reads the value back from it. */
  lemma ReadFieldLine(k: LineKind, value: String)
    requires k != TitleLine && KindLabel(k) != []
    requires IsTrimmed(value)
    ensures Classify(FieldLine(k, value)) == k
    ensures FieldValue(FieldLine(k, value), k) == value
  {
    var line := FieldLine(k, value);
    var n := |KindLabel(k)|;
    assert line[..n] == KindLabel(k);
    ClassifyFieldLine(line, k);
    FieldLineValue(k, value);
  }

  lemma FieldLineValue(k: LineKind, value: String)
    requires KindLabel(k) != [] && IsTrimmed(value)
    ensures FieldValue(FieldLine(k, value), k) == value
  {
    LabelledValue(KindLabel(k), value);
  }

  /** The value after a label and one space, trimmed, is the trimmed value itself. */
  lemma LabelledValue(prefix: String, value: String)
    requires IsTrimmed(value)
    ensures Trim(Rest((if value == [] then prefix else prefix + " " + value), |prefix|)) == value
  {
    if value != [] {
      assert Rest(prefix + " " + value, |prefix|) == [' '] + value;
      TrimSkipsLeadingSpace(' ', value);
      TrimOfTrimmed(value);
    } else {
      assert Rest(prefix, |prefix|) == [];
      TrimOfTrimmed([]);
    }
  }

  /** The non-blank lines of the document, trimmed: what the parser's loop visits. */
  function ParsedLines(d: DocFields): seq<String> {
    [ TitlePrefix + d.title,
      FieldLine(VideoUrlLine, d.videoUrl),
      FieldLine(ThumbnailLine, d.thumbnail),
      FieldLine(DurationLine, d.duration),
      FieldLine(TagsLine, d.tags),
      FieldLine(DescriptionLine, d.description) ]
  }

  /** The template's lines, trimmed: the blank second line stays blank, the others become `ParsedLines`. */
  lemma TrimTemplate(d: DocFields)
    requires SingleLines(d) && d.title != []
    ensures TrimAll(Template(d)) == [TitlePrefix + d.title, []] + ParsedLines(d)[1..]
  {
    var lines := Template(d);
    var t := TrimAll(lines);
    TitleLineTrimmed(d.title);
    assert t[1] == [] by { assert lines[1] == []; }
    TrimLabelled(VideoUrlLine, d.videoUrl);
    TrimLabelled(ThumbnailLine, d.thumbnail);
    TrimLabelled(DurationLine, d.duration);
    TrimLabelled(TagsLine, d.tags);
    TrimLabelled(DescriptionLine, d.description);
  }

  /** The lines the parser visits are exactly `ParsedLines`. */
  lemma LinesOfTemplate(d: DocFields)
    requires SingleLines(d) && d.title != []
    ensures Lines(Join(Template(d), "\n")) == ParsedLines(d)
  {
    var p := ParsedLines(d);
    SplitTemplate(d);
    TrimTemplate(d);
    FilterDropsSecond(p[0], [], p[1..], NonEmpty);
    assert [p[0]] + p[1..] == p;
  }

  /** The draft once the title, URL and thumbnail lines are read. */
  function HeadDraft(d: DocFields): Draft {
    Draft(Some(d.title), Some(Slug.CreateSlug(d.title)), Some(d.videoUrl), Some(d.thumbnail), None, None, None, None)
  }

  lemma ParseHeadLines(d: DocFields)
    requires SingleLines(d) && d.title != []
    ensures ParseLines(EmptyDraft, ParsedLines(d)) == ParseLines(HeadDraft(d), ParsedLines(d)[3..])
  {
    var p := ParsedLines(d);
    TitleLineTrimmed(d.title);
    ReadFieldLine(VideoUrlLine, d.videoUrl);
    ReadFieldLine(ThumbnailLine, d.thumbnail);
    var d1 := Step(EmptyDraft, p[0]);
    var d2 := Step(d1, p[1]);
    ParseLinesFrom(EmptyDraft, p, 0);
    ParseLinesFrom(d1, p, 1);
    ParseLinesFrom(d2, p, 2);
    assert p[0..] == p;
  }

  lemma ParseTailLines(d: DocFields)
    requires SingleLines(d)
    ensures ParseLines(HeadDraft(d), ParsedLines(d)[3..])
         == HeadDraft(d).(duration := Some(d.duration), tags := Some(SplitTags(d.tags)), description := Some(d.description))
  {
    var p := ParsedLines(d);
    var d3 := HeadDraft(d);
    var d4 := d3.(duration := Some(d.duration));
    var d5 := d4.(tags := Some(SplitTags(d.tags)));
    StepDuration(d3, d.duration);
    StepTags(d4, d.tags);
    StepDescription(d5, d.description);
    ParseLinesFrom(d3, p, 3);
    ParseLinesFrom(d4, p, 4);
    ParseLinesFrom(d5, p, 5);
    assert p[6..] == [];
  }

  lemma StepDuration(d: Draft, value: String)
    requires IsTrimmed(value)
    ensures Step(d, FieldLine(DurationLine, value)) == d.(duration := Some(value))
  {
    ReadFieldLine(DurationLine, value);
  }

  lemma StepTags(d: Draft, value: String)
    requires IsTrimmed(value)
    ensures Step(d, FieldLine(TagsLine, value)) == d.(tags := Some(SplitTags(value)))
  {
    ReadFieldLine(TagsLine, value);
  }

  lemma StepDescription(d: Draft, value: String)
    requires IsTrimmed(value)
    ensures Step(d, FieldLine(DescriptionLine, value)) == d.(description := Some(value))
  {
    ReadFieldLine(DescriptionLine, value);
  }

  /** The draft the parser's loop leaves after `ParsedLines(d)`. */
  function ParsedDraft(d: DocFields): Draft {
    Draft(Some(d.title), Some(Slug.CreateSlug(d.title)), Some(d.videoUrl), Some(d.thumbnail),
          Some(d.duration), Some(SplitTags(d.tags)), None, Some(d.description))
  }

  /** The parser's loop over `ParsedLines` sets the title, slug, URL, thumbnail, duration, tags and description. */
  lemma ParseParsedLines(d: DocFields)
    requires SingleLines(d) && d.title != []
    ensures ParseLines(EmptyDraft, ParsedLines(d)) == ParsedDraft(d)
  {
    ParseHeadLines(d);
    ParseTailLines(d);
  }

  /** With the four required fields non-empty, the check after the loop accepts the draft. */
  lemma FinishParsedDraft(d: DocFields, today: String)
    requires d.title != [] && d.videoUrl != [] && d.thumbnail != [] && d.duration != []
    ensures Finish(ParsedDraft(d), today)
         == Some(ParsedVideo(Slug.CreateSlug(d.title), d.title, today, d.thumbnail, d.videoUrl, d.duration,
                             SplitTags(d.tags), d.description, None))
  {
  }

  lemma ParseOfLines(markdown: String, lines: seq<String>, today: String)
    requires Lines(markdown) == lines
    ensures ParseMarkdown(markdown, today) == Finish(ParseLines(EmptyDraft, lines), today)
  {
  }

  /** A document whose lines are `ParsedLines(d)` parses to the values of `d`. */
  lemma ParseOfParsedLines(markdown: String, d: DocFields, today: String)
    requires SingleLines(d) && d.title != [] && d.videoUrl != [] && d.thumbnail != [] && d.duration != []
    requires Lines(markdown) == ParsedLines(d)
    ensures ParseMarkdown(markdown, today)
         == Some(ParsedVideo(Slug.CreateSlug(d.title), d.title, today, d.thumbnail, d.videoUrl, d.duration,
                             SplitTags(d.tags), d.description, None))
  {
    ParseParsedLines(d);
    FinishParsedDraft(d, today);
    ParseOfLines(markdown, ParsedLines(d), today);
  }

  /** Parsing the template filled in with single-line values gives those values back. */
  lemma ParseTemplate(d: DocFields, today: String)
    requires SingleLines(d) && d.title != [] && d.videoUrl != [] && d.thumbnail != [] && d.duration != []
    ensures ParseMarkdown(Join(Template(d), "\n"), today)
         == Some(ParsedVideo(Slug.CreateSlug(d.title), d.title, today, d.thumbnail, d.videoUrl, d.duration,
                             SplitTags(d.tags), d.description, None))
  {
    LinesOfTemplate(d);
    ParseOfParsedLines(Join(Template(d), "\n"), d, today);
  }

  /** For a form of single trimmed lines, the values put into the document are single trimmed lines as well. */
  lemma FormFieldsSingleLines(f: FormData)
    requires SingleLineTrimmed(f)
    ensures SingleLines(DocFieldsOf(f))
  {
    var tags := TagsArray(f);
    SplitTagsAreTags(f.tags);
    SplitTagsAvoids(f.tags, '\n');
    JoinAvoids(tags, ", ", '\n');
    if tags != [] { JoinTrimmed(tags, ", "); }
  }

  /**
   * Round trip: parsing the generated document gives back the title, URL,
   * thumbnail, duration, tags and description of the form, and filed under
   * the selected actress it is the object `handleSubmit` builds, provided
   * the fields are single lines without surrounding whitespace.
   */
  lemma MarkdownRoundTrip(f: FormData, today: String)
    requires RequiredPresent(f) && SingleLineTrimmed(f)
    ensures ParseMarkdown(BuildMarkdown(f), today)
         == Some(ParsedVideo(Slug.CreateSlug(f.title), f.title, today, f.thumbnail, f.videoUrl, f.duration,
                             TagsArray(f), DescriptionOrDot(f.description), None))
    ensures AddCategory(ParseMarkdown(BuildMarkdown(f), today).value, f.actress) == BuildVideoObject(f, today)
  {
    FormFieldsSingleLines(f);
    ParseTemplate(DocFieldsOf(f), today);
    SplitTagsAreTags(f.tags);
    SplitTagsOfJoin(TagsArray(f));
  }
}
