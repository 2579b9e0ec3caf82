/**
 * The catalog (lib/videos.ts): the line-oriented markdown parser, catalog
 * assembly from the static entries, lookup by slug, grouping by category and
 * the merge of static and file-loaded videos.
 */
module Videos {
  import opened Wrappers
  import opened Text
  import opened Seqs
  import Slug

  /** A catalog entry (types.ts) with its category attached. */
  datatype Video = Video(
    slug: String,
    title: String,
    uploadDate: String,
    thumbnail: String,
    videoUrl: String,
    duration: String,
    tags: seq<String>,
    description: String,
    category: String)

  /** The object the parser fills in: every field stays absent until a line sets it. */
  datatype Draft = Draft(
    title: Option<String>,
    slug: Option<String>,
    videoUrl: Option<String>,
    thumbnail: Option<String>,
    duration: Option<String>,
    tags: Option<seq<String>>,
    category: Option<String>,
    description: Option<String>)

  const EmptyDraft := Draft(None, None, None, None, None, None, None, None)

  /** What the parser returns: a video whose category is not attached yet. */
  datatype ParsedVideo = ParsedVideo(
    slug: String,
    title: String,
    uploadDate: String,
    thumbnail: String,
    videoUrl: String,
    duration: String,
    tags: seq<String>,
    description: String,
    category: Option<String>)

  /** One element of the static catalog: a markdown document and the category it is filed under. */
  datatype StaticEntry = StaticEntry(markdown: String, category: String)

  /** A category and its videos: one property of the record the grouping functions build. */
  datatype Group = Group(category: String, videos: seq<Video>)

  const TitlePrefix := "# "
  const VideoUrlPrefix := "**Video URL:**"
  const ThumbnailPrefix := "**Thumbnail:**"
  const DurationPrefix := "**Duration:**"
  const TagsPrefix := "**Tags:**"
  const CategoryPrefix := "**Category:**"
  const DescriptionPrefix := "**Description:**"

  function TrimAll(parts: seq<String>): (r: seq<String>)
    ensures |r| == |parts|
    ensures forall i :: 0 <= i < |parts| ==> r[i] == Trim(parts[i])
  {
    seq(|parts|, i requires 0 <= i < |parts| => Trim(parts[i]))
  }

  function NonEmpty(s: String): bool { s != [] }

  /** `markdown.split('\n').map(line => line.trim()).filter(line => line)` */
  function Lines(markdown: String): seq<String> {
    Filter(TrimAll(Split(markdown, '\n')), NonEmpty)
  }

  /**
   * `s.split(',').map(tag => tag.trim()).filter(Boolean)`: the tag splitter of
   * the parser and of the upload form alike.
   */
  function SplitTags(s: String): seq<String> {
    Filter(TrimAll(Split(s, ',')), NonEmpty)
  }

  /** What a tag looks like: non-empty, no surrounding whitespace, no comma. */
  predicate IsTag(t: String) {
    t != [] && IsTrimmed(t) && ',' !in t
  }

  /** Every piece the splitter keeps is a tag. */
  lemma SplitTagsAreTags(s: String)
    ensures forall i :: 0 <= i < |SplitTags(s)| ==> IsTag(SplitTags(s)[i])
  {
    var parts := Split(s, ',');
    var pieces := TrimAll(parts);
    forall k | 0 <= k < |pieces| ensures IsTrimmed(pieces[k]) && ',' !in pieces[k] {
      TrimAvoids(parts[k], ',');
    }
    FilterAll(pieces, NonEmpty, t => IsTrimmed(t) && ',' !in t);
  }

  /** The text after the first `n` characters (the label a line starts with). */
  function Rest(line: String, n: nat): String {
    if n <= |line| then line[n..] else []
  }

  /** Which branch of the parser's if-chain a line takes. */
  datatype LineKind =
    | TitleLine | VideoUrlLine | ThumbnailLine | DurationLine | TagsLine | CategoryLine | DescriptionLine
    | TextLine    // neither `**` nor `#`: a line of the description
    | OtherLine   // any other label or heading: ignored

  function KindLabel(k: LineKind): String {
    match k
    case TitleLine => TitlePrefix
    case VideoUrlLine => VideoUrlPrefix
    case ThumbnailLine => ThumbnailPrefix
    case DurationLine => DurationPrefix
    case TagsLine => TagsPrefix
    case CategoryLine => CategoryPrefix
    case DescriptionLine => DescriptionPrefix
    case TextLine => []
    case OtherLine => []
  }

  /** A line that starts with `p` starts with every prefix of `p`. */
  lemma StartsWithShorter(line: String, p: String, n: nat)
    requires StartsWith(line, p) && n <= |p|
    ensures StartsWith(line, p[..n])
  {
    assert line[..|p|][..n] == line[..n];
  }

  /** The tests of the parser's if-chain, in the order it makes them. */
  function Classify(line: String): (k: LineKind)
    ensures StartsWith(line, KindLabel(k))
    ensures k == TextLine <==> !StartsWith(line, "**") && !StartsWith(line, "#")
  {
    if StartsWith(line, TitlePrefix) then StartsWithShorter(line, TitlePrefix, 1); TitleLine
    else if StartsWith(line, VideoUrlPrefix) then StartsWithShorter(line, VideoUrlPrefix, 2); VideoUrlLine
    else if StartsWith(line, ThumbnailPrefix) then StartsWithShorter(line, ThumbnailPrefix, 2); ThumbnailLine
    else if StartsWith(line, DurationPrefix) then StartsWithShorter(line, DurationPrefix, 2); DurationLine
    else if StartsWith(line, TagsPrefix) then StartsWithShorter(line, TagsPrefix, 2); TagsLine
    else if StartsWith(line, CategoryPrefix) then StartsWithShorter(line, CategoryPrefix, 2); CategoryLine
    else if StartsWith(line, DescriptionPrefix) then StartsWithShorter(line, DescriptionPrefix, 2); DescriptionLine
    else if !StartsWith(line, "**") && !StartsWith(line, "#") then TextLine
    else OtherLine
  }

  /** The value after a field label: `line.replace(prefix, '').trim()`. */
  function FieldValue(line: String, k: LineKind): String {
    Trim(Rest(line, |KindLabel(k)|))
  }

  /** One turn of the parser's loop. */
  function Step(d: Draft, line: String): Draft {
    match Classify(line)
    case TitleLine =>
      d.(title := Some(Rest(line, |TitlePrefix|)), slug := Some(Slug.CreateSlug(Rest(line, |TitlePrefix|))))
    case VideoUrlLine => d.(videoUrl := Some(FieldValue(line, VideoUrlLine)))
    case ThumbnailLine => d.(thumbnail := Some(FieldValue(line, ThumbnailLine)))
    case DurationLine => d.(duration := Some(FieldValue(line, DurationLine)))
    case TagsLine => d.(tags := Some(SplitTags(FieldValue(line, TagsLine))))
    case CategoryLine => d.(category := Some(FieldValue(line, CategoryLine)))
    case DescriptionLine => d.(description := Some(FieldValue(line, DescriptionLine)))
    case TextLine =>
      d.(description := Some(if d.description.None? then line else d.description.value + "\n" + line))
    case OtherLine => d
  }

  function ParseLines(d: Draft, lines: seq<String>): Draft
    decreases lines
  {
    if lines == [] then d else ParseLines(Step(d, lines[0]), lines[1..])
  }

  /** JavaScript truthiness of an optional string. */
  predicate Present(s: Option<String>) {
    s.Some? && s.value != []
  }

  /** The validation after the loop, and the object it returns. */
  function Finish(d: Draft, today: String): (r: Option<ParsedVideo>)
    ensures r.Some? <==> Present(d.title) && Present(d.videoUrl) && Present(d.thumbnail) && Present(d.duration)
    ensures r.Some? ==> r.value.uploadDate == today
  {
    if !Present(d.title) || !Present(d.videoUrl) || !Present(d.thumbnail) || !Present(d.duration) then
      None
    else
      Some(ParsedVideo(
        d.slug.GetOr([]), d.title.value, today, d.thumbnail.value, d.videoUrl.value,
        d.duration.value, d.tags.GetOr([]), d.description.GetOr([]), d.category))
  }

  /** The slug field always holds the slug of the title field. */
  ghost predicate SlugTracksTitle(d: Draft) {
    d.title.None? == d.slug.None? && (d.title.Some? ==> d.slug.value == Slug.CreateSlug(d.title.value))
  }

  lemma {:induction false} ParseLinesKeepsSlug(d: Draft, lines: seq<String>)
    requires SlugTracksTitle(d)
    ensures SlugTracksTitle(ParseLines(d, lines))
    decreases lines
  {
    if lines != [] {
      ParseLinesKeepsSlug(Step(d, lines[0]), lines[1..]);
    }
  }

  /** `parseMarkdownToVideo(markdown)`, with the current date passed in as `today`. */
  function ParseMarkdown(markdown: String, today: String): (r: Option<ParsedVideo>)
    ensures r.Some? ==> (r.value.title != [] && r.value.videoUrl != []
                         && r.value.thumbnail != [] && r.value.duration != [])
    ensures r.Some? ==> r.value.uploadDate == today
  {
    Finish(ParseLines(EmptyDraft, Lines(markdown)), today)
  }

  /** A parsed video's slug is the slug of its title. */
  lemma ParsedSlugMatchesTitle(markdown: String, today: String)
    requires ParseMarkdown(markdown, today).Some?
    ensures ParseMarkdown(markdown, today).value.slug == Slug.CreateSlug(ParseMarkdown(markdown, today).value.title)
  {
    ParseLinesKeepsSlug(EmptyDraft, Lines(markdown));
  }

  /** The parser as the source writes it: a loop that fills in one object line by line. */
  method ParseMarkdownToVideo(markdown: String, today: String) returns (r: Option<ParsedVideo>)
    ensures r == ParseMarkdown(markdown, today)
  {
    var lines := Lines(markdown);
    var videoData := EmptyDraft;
    var i := 0;
    while i < |lines|
      invariant 0 <= i <= |lines|
      invariant ParseLines(videoData, lines[i..]) == ParseLines(EmptyDraft, lines)
    {
      assert lines[i..][0] == lines[i] && lines[i..][1..] == lines[i + 1..];
      videoData := ApplyLine(videoData, lines[i]);
      i := i + 1;
    }
    r := Finish(videoData, today);
  }

  /** The body of the parser's loop: the first test the line passes decides which field it sets. */
  method ApplyLine(d: Draft, line: String) returns (videoData: Draft)
    ensures videoData == Step(d, line)
  {
    videoData := d;
    if StartsWith(line, TitlePrefix) {
      assert Classify(line) == TitleLine;
      var title := Rest(line, |TitlePrefix|);
      videoData := videoData.(title := Some(title), slug := Some(Slug.CreateSlug(title)));
    } else if StartsWith(line, VideoUrlPrefix) {
      assert Classify(line) == VideoUrlLine;
      videoData := videoData.(videoUrl := Some(FieldValue(line, VideoUrlLine)));
    } else if StartsWith(line, ThumbnailPrefix) {
      assert Classify(line) == ThumbnailLine;
      videoData := videoData.(thumbnail := Some(FieldValue(line, ThumbnailLine)));
    } else if StartsWith(line, DurationPrefix) {
      assert Classify(line) == DurationLine;
      videoData := videoData.(duration := Some(FieldValue(line, DurationLine)));
    } else if StartsWith(line, TagsPrefix) {
      assert Classify(line) == TagsLine;
      var tagsStr := FieldValue(line, TagsLine);
      videoData := videoData.(tags := Some(SplitTags(tagsStr)));
    } else if StartsWith(line, CategoryPrefix) {
      assert Classify(line) == CategoryLine;
      videoData := videoData.(category := Some(FieldValue(line, CategoryLine)));
    } else if StartsWith(line, DescriptionPrefix) {
      assert Classify(line) == DescriptionLine;
      videoData := videoData.(description := Some(FieldValue(line, DescriptionLine)));
    } else if !StartsWith(line, "**") && !StartsWith(line, "#") && d.description.None? {
      assert Classify(line) == TextLine;
      videoData := videoData.(description := Some(line));
    } else if d.description.Some? && !StartsWith(line, "**") && !StartsWith(line, "#") {
      assert Classify(line) == TextLine;
      videoData := videoData.(description := Some(videoData.description.value + "\n" + line));
    }
  }

  /** The four fields the parser insists on. */
  datatype RequiredField = TitleField | VideoUrlField | ThumbnailField | DurationField

  function KindOf(f: RequiredField): LineKind {
    match f
    case TitleField => TitleLine
    case VideoUrlField => VideoUrlLine
    case ThumbnailField => ThumbnailLine
    case DurationField => DurationLine
  }

  function Label(f: RequiredField): String { KindLabel(KindOf(f)) }

  function Get(d: Draft, f: RequiredField): Option<String> {
    match f
    case TitleField => d.title
    case VideoUrlField => d.videoUrl
    case ThumbnailField => d.thumbnail
    case DurationField => d.duration
  }

  /** The value a line carrying the label of `f` stores: the title untrimmed, the others trimmed. */
  function ValueOf(line: String, f: RequiredField): String {
    if f == TitleField then Rest(line, |TitlePrefix|) else FieldValue(line, KindOf(f))
  }

  /** A line that starts with a required field's label is parsed as that field: no earlier test catches it. */
  lemma ClassifyLabelled(line: String, f: RequiredField)
    requires StartsWith(line, Label(f))
    ensures Classify(line) == KindOf(f)
  {
    if f != TitleField {
      var n := |Label(f)|;
      assert line[..n][0] == line[0] && line[..n][2] == line[2] && line[..n][3] == line[3];
    }
  }

  /** Only a line of a field's kind changes that field. */
  lemma StepSetsOnlyLabelled(d: Draft, line: String, f: RequiredField)
    ensures Get(Step(d, line), f) == if Classify(line) == KindOf(f) then Some(ValueOf(line, f)) else Get(d, f)
  {
  }

  lemma {:induction false} ParseLinesWithoutLabel(d: Draft, lines: seq<String>, f: RequiredField)
    requires forall i :: 0 <= i < |lines| ==> !StartsWith(lines[i], Label(f))
    ensures Get(ParseLines(d, lines), f) == Get(d, f)
    decreases lines
  {
    if lines != [] {
      StepSetsOnlyLabelled(d, lines[0], f);
      ParseLinesWithoutLabel(Step(d, lines[0]), lines[1..], f);
    }
  }

  /** A document with no line for a required field does not parse. */
  lemma MissingFieldFails(markdown: String, today: String, f: RequiredField)
    requires forall i :: 0 <= i < |Lines(markdown)| ==> !StartsWith(Lines(markdown)[i], Label(f))
    ensures ParseMarkdown(markdown, today) == None
  {
    ParseLinesWithoutLabel(EmptyDraft, Lines(markdown), f);
  }

  lemma {:induction false} ParseLinesAppend(d: Draft, a: seq<String>, b: seq<String>)
    ensures ParseLines(d, a + b) == ParseLines(ParseLines(d, a), b)
    decreases a
  {
    if a == [] {
      assert a + b == b;
    } else {
      assert (a + b)[0] == a[0] && (a + b)[1..] == a[1..] + b;
      ParseLinesAppend(Step(d, a[0]), a[1..], b);
    }
  }

  /** The last line carrying a field's label decides that field: later lines overwrite earlier ones. */
  lemma LastLabelledLineWins(d: Draft, lines: seq<String>, f: RequiredField, i: nat)
    requires i < |lines| && StartsWith(lines[i], Label(f))
    requires forall j :: i < j < |lines| ==> !StartsWith(lines[j], Label(f))
    ensures Get(ParseLines(d, lines), f) == Some(ValueOf(lines[i], f))
  {
    ParseLinesAround(d, lines, i);
    var before := ParseLines(d, lines[..i]);
    ClassifyLabelled(lines[i], f);
    StepSetsOnlyLabelled(before, lines[i], f);
    ParseLinesWithoutLabel(Step(before, lines[i]), lines[i + 1..], f);
  }

  /** The `**Tags:**` and `**Category:**` labels are not caught by an earlier test of the if-chain. */
  lemma ClassifyTagsCategory(line: String)
    ensures StartsWith(line, TagsPrefix) ==> Classify(line) == TagsLine
    ensures StartsWith(line, CategoryPrefix) ==> Classify(line) == CategoryLine
  {
    if StartsWith(line, TagsPrefix) {
      assert line[..|TagsPrefix|][0] == line[0] && line[..|TagsPrefix|][2] == line[2] && line[..|TagsPrefix|][3] == line[3];
    }
    if StartsWith(line, CategoryPrefix) {
      assert line[..|CategoryPrefix|][0] == line[0] && line[..|CategoryPrefix|][2] == line[2];
    }
  }

  /** Lines without the `**Tags:**` label leave the tags alone, and likewise for the category. */
  lemma {:induction false} ParseLinesKeepsTagsCategory(d: Draft, lines: seq<String>)
    ensures (forall j :: 0 <= j < |lines| ==> !StartsWith(lines[j], TagsPrefix)) ==> ParseLines(d, lines).tags == d.tags
    ensures (forall j :: 0 <= j < |lines| ==> !StartsWith(lines[j], CategoryPrefix)) ==> ParseLines(d, lines).category == d.category
    decreases lines
  {
    if lines != [] {
      ParseLinesKeepsTagsCategory(Step(d, lines[0]), lines[1..]);
    }
  }

  /** The loop, split around line `i`: the lines before it, line `i` itself, the lines after it. */
  lemma ParseLinesAround(d: Draft, lines: seq<String>, i: nat)
    requires i < |lines|
    ensures ParseLines(d, lines) == ParseLines(Step(ParseLines(d, lines[..i]), lines[i]), lines[i + 1..])
  {
    assert lines == lines[..i + 1] + lines[i + 1..];
    assert lines[..i + 1] == lines[..i] + [lines[i]];
    ParseLinesAppend(d, lines[..i + 1], lines[i + 1..]);
    ParseLinesAppend(d, lines[..i], [lines[i]]);
    ParseLinesOne(ParseLines(d, lines[..i]), lines[i]);
  }

  lemma ParseLinesOne(d: Draft, line: String)
    ensures ParseLines(d, [line]) == Step(d, line)
  {
    assert [line][1..] == [];
  }

  /** A `**Tags:**` line sets the tags to the pieces of its value, and a `**Category:**` line the category. */
  lemma StepTagsCategory(d: Draft, line: String)
    ensures StartsWith(line, TagsPrefix) ==> Step(d, line).tags == Some(SplitTags(FieldValue(line, TagsLine)))
    ensures StartsWith(line, CategoryPrefix) ==> Step(d, line).category == Some(FieldValue(line, CategoryLine))
  {
    ClassifyTagsCategory(line);
  }

  /** The last `**Tags:**` line decides the tags: later lines overwrite earlier ones. */
  lemma LastTagsLineWins(d: Draft, lines: seq<String>, i: nat)
    requires i < |lines| && StartsWith(lines[i], TagsPrefix)
    requires forall j :: i < j < |lines| ==> !StartsWith(lines[j], TagsPrefix)
    ensures ParseLines(d, lines).tags == Some(SplitTags(FieldValue(lines[i], TagsLine)))
  {
    ParseLinesAround(d, lines, i);
    var after := Step(ParseLines(d, lines[..i]), lines[i]);
    StepTagsCategory(ParseLines(d, lines[..i]), lines[i]);
    ParseLinesKeepsTagsCategory(after, lines[i + 1..]);
  }

  /** The last `**Category:**` line decides the category. */
  lemma LastCategoryLineWins(d: Draft, lines: seq<String>, i: nat)
    requires i < |lines| && StartsWith(lines[i], CategoryPrefix)
    requires forall j :: i < j < |lines| ==> !StartsWith(lines[j], CategoryPrefix)
    ensures ParseLines(d, lines).category == Some(FieldValue(lines[i], CategoryLine))
  {
    ParseLinesAround(d, lines, i);
    var after := Step(ParseLines(d, lines[..i]), lines[i]);
    StepTagsCategory(ParseLines(d, lines[..i]), lines[i]);
    ParseLinesKeepsTagsCategory(after, lines[i + 1..]);
  }

  /** One plain text line extends the description, or starts it when it is undefined. */
  lemma StepTextLine(d: Draft, line: String)
    requires !StartsWith(line, "**") && !StartsWith(line, "#")
    ensures Step(d, line) == d.(description := Some(if d.description.None? then line else d.description.value + "\n" + line))
  {
    assert Classify(line) == TextLine;
  }

  /**
   * Plain text lines are not labelled: they accumulate into the description,
   * joined by newlines after whatever it held, and nothing else changes.
   */
  lemma {:induction false} TextLinesAccumulate(d: Draft, texts: seq<String>)
    requires texts != []
    requires forall j :: 0 <= j < |texts| ==> !StartsWith(texts[j], "**") && !StartsWith(texts[j], "#")
    ensures ParseLines(d, texts) == d.(description := Some(
      if d.description.None? then Join(texts, "\n") else d.description.value + "\n" + Join(texts, "\n")))
    decreases texts
  {
    var next := Step(d, texts[0]);
    StepTextLine(d, texts[0]);
    assert ParseLines(d, texts) == ParseLines(next, texts[1..]);
    if |texts| > 1 {
      var rest := texts[1..];
      assert forall j :: 0 <= j < |rest| ==> rest[j] == texts[j + 1];
      TextLinesAccumulate(next, rest);
      var joined := Join(rest, "\n");
      assert Join(texts, "\n") == texts[0] + "\n" + joined;
      if d.description.Some? {
        var v := d.description.value;
        assert (v + "\n" + texts[0]) + "\n" + joined == v + "\n" + (texts[0] + "\n" + joined);
      }
    }
  }

  /** `addCategoryToVideo(video, category)`: the entry's category replaces any the markdown named. */
  function AddCategory(p: ParsedVideo, category: String): (v: Video)
    ensures v.category == category && v.slug == p.slug && v.title == p.title && v.tags == p.tags
  {
    Video(p.slug, p.title, p.uploadDate, p.thumbnail, p.videoUrl, p.duration, p.tags, p.description, category)
  }

  /** The video an entry contributes, if `parse` accepts its markdown. */
  function EntryVideo(e: StaticEntry, parse: String -> Option<ParsedVideo>): (r: seq<Video>)
    ensures |r| <= 1
    ensures r != [] ==> r[0].category == e.category
  {
    match parse(e.markdown)
    case Some(p) => [AddCategory(p, e.category)]
    case None => []
  }

  /**
   * The loop of `getAllVideos()` for any parser: entries in order, each
   * parsed video with its entry's category, entries that do not parse dropped.
   */
  function Catalog(entries: seq<StaticEntry>, parse: String -> Option<ParsedVideo>): (r: seq<Video>)
    ensures |r| <= |entries|
  {
    if entries == [] then [] else EntryVideo(entries[0], parse) + Catalog(entries[1..], parse)
  }

  /** The markdown parser on a given day, as a value. */
  function Parser(today: String): String -> Option<ParsedVideo> {
    m => ParseMarkdown(m, today)
  }

  /** `getAllVideos()`. */
  function AllVideos(entries: seq<StaticEntry>, today: String): seq<Video> {
    Catalog(entries, Parser(today))
  }

  lemma {:induction false} CatalogAppend(a: seq<StaticEntry>, b: seq<StaticEntry>, parse: String -> Option<ParsedVideo>)
    ensures Catalog(a + b, parse) == Catalog(a, parse) + Catalog(b, parse)
  {
    if a == [] {
      assert a + b == b;
    } else {
      assert (a + b)[0] == a[0] && (a + b)[1..] == a[1..] + b;
      CatalogAppend(a[1..], b, parse);
    }
  }

  /** Every catalog video is filed under the category of one of the entries. */
  lemma {:induction false} CatalogCategories(entries: seq<StaticEntry>, parse: String -> Option<ParsedVideo>)
    ensures forall i :: 0 <= i < |Catalog(entries, parse)| ==>
      Catalog(entries, parse)[i].category in (set e | e in entries :: e.category)
  {
    if entries != [] {
      CatalogCategories(entries[1..], parse);
      var head := EntryVideo(entries[0], parse);
      var rest := Catalog(entries[1..], parse);
      var r := Catalog(entries, parse);
      assert r == head + rest;
      forall i | 0 <= i < |r|
        ensures r[i].category in (set e | e in entries :: e.category)
      {
        if i < |head| {
          assert r[i].category == entries[0].category;
        } else {
          assert r[i] == rest[i - |head|];
          var e :| e in entries[1..] && e.category == r[i].category;
          assert e in entries;
        }
      }
    } else {
      assert Catalog(entries, parse) == [];
    }
  }

  /** Every catalog video keeps the slug the parser derived from its title. */
  lemma {:induction false} AllVideosSlugs(entries: seq<StaticEntry>, today: String)
    ensures forall i :: 0 <= i < |AllVideos(entries, today)| ==>
      AllVideos(entries, today)[i].slug == Slug.CreateSlug(AllVideos(entries, today)[i].title)
  {
    if entries != [] {
      AllVideosSlugs(entries[1..], today);
      EntryVideoSlug(entries[0], today);
      SlugsOfAppend(EntryVideo(entries[0], Parser(today)), AllVideos(entries[1..], today));
    } else {
      assert AllVideos(entries, today) == [];
    }
  }

  predicate SlugsFromTitles(videos: seq<Video>) {
    forall i :: 0 <= i < |videos| ==> videos[i].slug == Slug.CreateSlug(videos[i].title)
  }

  lemma SlugsOfAppend(a: seq<Video>, b: seq<Video>)
    requires SlugsFromTitles(a) && SlugsFromTitles(b)
    ensures SlugsFromTitles(a + b)
  {
    var r := a + b;
    forall i | 0 <= i < |r| ensures r[i].slug == Slug.CreateSlug(r[i].title) {
      if i >= |a| {
        assert r[i] == b[i - |a|];
      }
    }
  }

  /** An entry's video, when it parses, has the slug of its title. */
  lemma EntryVideoSlug(e: StaticEntry, today: String)
    ensures SlugsFromTitles(EntryVideo(e, Parser(today)))
  {
    var p := ParseMarkdown(e.markdown, today);
    assert Parser(today)(e.markdown) == p;
    if p.Some? {
      ParsedSlugMatchesTitle(e.markdown, today);
      assert EntryVideo(e, Parser(today)) == [AddCategory(p.value, e.category)];
    }
  }

  /** `allVideos.find(v => v.slug === slug)`: the first video with the slug. */
  function FindBySlug(videos: seq<Video>, slug: String): (r: Option<Video>)
    ensures r.None? <==> forall i :: 0 <= i < |videos| ==> videos[i].slug != slug
    ensures r.Some? ==> exists i :: 0 <= i < |videos| && videos[i] == r.value && r.value.slug == slug
                                    && forall j :: 0 <= j < i ==> videos[j].slug != slug
  {
    if videos == [] then None
    else if videos[0].slug == slug then Some(videos[0])
    else
      var r := FindBySlug(videos[1..], slug);
      assert r.Some? ==> exists i :: 0 <= i < |videos| && videos[i] == r.value && r.value.slug == slug
                                    && forall j :: 0 <= j < i ==> videos[j].slug != slug by {
        if r.Some? {
          var i :| 0 <= i < |videos[1..]| && videos[1..][i] == r.value && r.value.slug == slug
                   && forall j :: 0 <= j < i ==> videos[1..][j].slug != slug;
          assert videos[i + 1] == r.value;
          assert forall j :: 0 <= j < i + 1 ==> videos[j].slug != slug by {
            forall j | 0 <= j < i + 1 ensures videos[j].slug != slug {
              if j > 0 { assert videos[j] == videos[1..][j - 1]; }
            }
          }
        }
      }
      r
  }

  /** `getVideoBySlug(slug)`. */
  function VideoBySlug(entries: seq<StaticEntry>, today: String, slug: String): Option<Video> {
    FindBySlug(AllVideos(entries, today), slug)
  }

  lemma {:induction false} FindBySlugAppend(a: seq<Video>, b: seq<Video>, slug: String)
    ensures FindBySlug(a + b, slug) == if FindBySlug(a, slug).Some? then FindBySlug(a, slug) else FindBySlug(b, slug)
  {
    if a != [] {
      assert (a + b)[0] == a[0] && (a + b)[1..] == a[1..] + b;
      FindBySlugAppend(a[1..], b, slug);
    } else {
      assert a + b == b;
    }
  }

  function CategoryOf(v: Video): String { v.category }

  function SlugOf(v: Video): String { v.slug }

  function Categories(groups: seq<Group>): set<String> {
    set g | g in groups :: g.category
  }

  lemma CategoriesCons(g: Group, groups: seq<Group>)
    ensures Categories([g] + groups) == {g.category} + Categories(groups)
  {
    assert forall x :: x in [g] + groups <==> x == g || x in groups;
  }

  /** `categories[video.category].push(video)`, creating the group on first use. */
  function AddToGroup(groups: seq<Group>, v: Video): (r: seq<Group>)
    ensures Categories(r) == Categories(groups) + {v.category}
  {
    if groups == [] then [Group(v.category, [v])]
    else if groups[0].category == v.category then
      CategoriesCons(groups[0], groups[1..]);
      CategoriesCons(groups[0].(videos := groups[0].videos + [v]), groups[1..]);
      assert groups == [groups[0]] + groups[1..];
      [groups[0].(videos := groups[0].videos + [v])] + groups[1..]
    else
      CategoriesCons(groups[0], groups[1..]);
      CategoriesCons(groups[0], AddToGroup(groups[1..], v));
      assert groups == [groups[0]] + groups[1..];
      [groups[0]] + AddToGroup(groups[1..], v)
  }

  /** The record built by pushing every video onto the list of its category. */
  function GroupByCategory(videos: seq<Video>): seq<Group> {
    if videos == [] then []
    else AddToGroup(GroupByCategory(videos[..|videos| - 1]), videos[|videos| - 1])
  }

  ghost predicate DistinctCategories(groups: seq<Group>) {
    forall i, j :: 0 <= i < j < |groups| ==> groups[i].category != groups[j].category
  }

  /** Each group holds, in source order, exactly the videos of its category. */
  ghost predicate GroupsMatch(groups: seq<Group>, videos: seq<Video>) {
    && DistinctCategories(groups)
    && (forall k :: 0 <= k < |groups| ==>
          groups[k].videos != [] && groups[k].videos == WithKey(videos, CategoryOf, groups[k].category))
    && Categories(groups) == set v | v in videos :: v.category
  }

  function TotalSize(groups: seq<Group>): nat {
    if groups == [] then 0 else |groups[0].videos| + TotalSize(groups[1..])
  }

  lemma {:induction false} AddToGroupSize(groups: seq<Group>, v: Video)
    ensures TotalSize(AddToGroup(groups, v)) == TotalSize(groups) + 1
  {
    if groups != [] && groups[0].category != v.category {
      AddToGroupSize(groups[1..], v);
      assert AddToGroup(groups, v)[1..] == AddToGroup(groups[1..], v);
    } else if groups != [] {
      assert AddToGroup(groups, v)[1..] == groups[1..];
    }
  }

  lemma {:induction false} AddToGroupMatches(groups: seq<Group>, videos: seq<Video>, v: Video)
    requires GroupsMatch(groups, videos)
    ensures GroupsMatch(AddToGroup(groups, v), videos + [v])
  {
    var all := videos + [v];
    forall c ensures WithKey(all, CategoryOf, c) == WithKey(videos, CategoryOf, c) + (if v.category == c then [v] else []) {
      WithKeyAppend(videos, [v], CategoryOf, c);
      assert WithKey([v], CategoryOf, c) == (if v.category == c then [v] else []) + WithKey([], CategoryOf, c);
    }
    assert (set x | x in all :: x.category) == (set x | x in videos :: x.category) + {v.category};
    AddToGroupShape(groups, v);
    AddToGroupDistinct(groups, v);
    var r := AddToGroup(groups, v);
    forall k | 0 <= k < |r|
      ensures r[k].videos != [] && r[k].videos == WithKey(all, CategoryOf, r[k].category)
    {
      if k == |groups| {
        assert v.category !in Categories(groups);
        assert forall x :: x in videos ==> x.category != v.category;
        WithKeyNone(videos, v.category);
      } else if r[k].category == v.category {
      } else {
      }
    }
  }

  /** How `AddToGroup` changes the list: one group grows, or a new one is appended. */
  lemma AddToGroupShape(groups: seq<Group>, v: Video)
    requires DistinctCategories(groups)
    ensures var r := AddToGroup(groups, v);
      && (v.category in Categories(groups) ==> |r| == |groups|)
      && (v.category !in Categories(groups) ==> |r| == |groups| + 1 && r[|groups|] == Group(v.category, [v]))
      && forall k :: 0 <= k < |groups| ==>
           r[k] == if groups[k].category == v.category then groups[k].(videos := groups[k].videos + [v]) else groups[k]
  {
    if v.category in Categories(groups) {
      var g :| g in groups && g.category == v.category;
      var j :| 0 <= j < |groups| && groups[j] == g;
      AddToGroupExisting(groups, v, j);
    } else {
      forall k | 0 <= k < |groups| ensures groups[k].category != v.category {
        assert groups[k] in groups;
      }
      AddToGroupNew(groups, v);
    }
  }

  /** A video of a category that has a group at `j`, and none before, is pushed onto that group. */
  lemma {:induction false} AddToGroupExisting(groups: seq<Group>, v: Video, j: nat)
    requires j < |groups| && groups[j].category == v.category
    requires forall k :: 0 <= k < j ==> groups[k].category != v.category
    ensures AddToGroup(groups, v) == groups[j := groups[j].(videos := groups[j].videos + [v])]
  {
    if j > 0 {
      AddToGroupExisting(groups[1..], v, j - 1);
    }
  }

  /** A video of a category without a group opens a new group at the end. */
  lemma {:induction false} AddToGroupNew(groups: seq<Group>, v: Video)
    requires forall k :: 0 <= k < |groups| ==> groups[k].category != v.category
    ensures AddToGroup(groups, v) == groups + [Group(v.category, [v])]
  {
    if groups != [] {
      AddToGroupNew(groups[1..], v);
    }
  }

  lemma AddToGroupDistinct(groups: seq<Group>, v: Video)
    requires DistinctCategories(groups)
    ensures DistinctCategories(AddToGroup(groups, v))
  {
    var r := AddToGroup(groups, v);
    if v.category in Categories(groups) {
      var g :| g in groups && g.category == v.category;
      var j :| 0 <= j < |groups| && groups[j] == g;
      AddToGroupExisting(groups, v, j);
      assert forall k :: 0 <= k < |groups| ==> r[k].category == groups[k].category;
    } else {
      forall k | 0 <= k < |groups| ensures groups[k].category != v.category {
        assert groups[k] in groups;
      }
      AddToGroupNew(groups, v);
    }
  }

  lemma {:induction false} WithKeyNone(videos: seq<Video>, c: String)
    requires forall x :: x in videos ==> x.category != c
    ensures WithKey(videos, CategoryOf, c) == []
  {
    if videos != [] {
      assert videos[0] in videos;
      WithKeyNone(videos[1..], c);
    }
  }

  /**
   * The grouping is exact: categories are distinct, each group is non-empty
   * and lists, in source order, exactly the videos of its category, every
   * video's category has a group, and the group sizes add up to the number of videos.
   */
  lemma {:induction false} GroupByCategoryCorrect(videos: seq<Video>)
    ensures GroupsMatch(GroupByCategory(videos), videos)
    ensures TotalSize(GroupByCategory(videos)) == |videos|
  {
    if videos != [] {
      var init, last := videos[..|videos| - 1], videos[|videos| - 1];
      assert init + [last] == videos;
      assert GroupByCategory(videos) == AddToGroup(GroupByCategory(init), last);
      GroupByCategoryCorrect(init);
      AddToGroupMatches(GroupByCategory(init), init, last);
      AddToGroupSize(GroupByCategory(init), last);
    }
  }

  /** `getVideosByCategory()`: each parsed static entry pushed onto its entry's category. */
  method VideosByCategory(entries: seq<StaticEntry>, today: String) returns (groups: seq<Group>)
    ensures groups == GroupByCategory(AllVideos(entries, today))
  {
    groups := [];
    var i := 0;
    while i < |entries|
      invariant 0 <= i <= |entries|
      invariant groups == GroupByCategory(Catalog(entries[..i], Parser(today)))
    {
      var video := ParseMarkdownToVideo(entries[i].markdown, today);
      CatalogGroupStep(entries, i, Parser(today));
      assert Parser(today)(entries[i].markdown) == video;
      if video.Some? {
        var v := AddCategory(video.value, entries[i].category);
        groups := AddToGroup(groups, v);
      }
      i := i + 1;
    }
    assert entries[..i] == entries;
  }

  /** One turn of the grouping loop, for any parser. */
  lemma CatalogGroupStep(entries: seq<StaticEntry>, i: nat, parse: String -> Option<ParsedVideo>)
    requires i < |entries|
    ensures GroupByCategory(Catalog(entries[..i + 1], parse))
         == match parse(entries[i].markdown)
            case Some(p) => AddToGroup(GroupByCategory(Catalog(entries[..i], parse)), AddCategory(p, entries[i].category))
            case None => GroupByCategory(Catalog(entries[..i], parse))
  {
    CatalogSnoc(entries, i, parse);
    var prev := Catalog(entries[..i], parse);
    match parse(entries[i].markdown)
    case Some(p) =>
      assert EntryVideo(entries[i], parse) == [AddCategory(p, entries[i].category)];
      GroupByCategorySnoc(prev, AddCategory(p, entries[i].category));
    case None =>
      assert EntryVideo(entries[i], parse) == [];
      assert prev + [] == prev;
  }

  lemma CatalogSnoc(entries: seq<StaticEntry>, i: nat, parse: String -> Option<ParsedVideo>)
    requires i < |entries|
    ensures Catalog(entries[..i + 1], parse) == Catalog(entries[..i], parse) + EntryVideo(entries[i], parse)
  {
    CatalogAppend(entries[..i], [entries[i]], parse);
    assert entries[..i + 1] == entries[..i] + [entries[i]];
    assert Catalog([entries[i]], parse) == EntryVideo(entries[i], parse) + Catalog([], parse);
  }

  lemma GroupByCategorySnoc(videos: seq<Video>, v: Video)
    ensures GroupByCategory(videos + [v]) == AddToGroup(GroupByCategory(videos), v)
  {
    var all := videos + [v];
    assert all[..|all| - 1] == videos && all[|all| - 1] == v;
  }

  function SlugSet(videos: seq<Video>): set<String> {
    set v | v in videos :: v.slug
  }

  /** The file videos whose slug is not taken, in load order. */
  function FreshVideos(fileVideos: seq<Video>, taken: set<String>): (r: seq<Video>)
    ensures forall i :: 0 <= i < |r| ==> r[i] in fileVideos && r[i].slug !in taken
  {
    if fileVideos == [] then []
    else (if fileVideos[0].slug in taken then [] else [fileVideos[0]]) + FreshVideos(fileVideos[1..], taken)
  }

  /**
   * The merge in `getAllVideosWithDynamic()`: the static list first, unchanged,
   * then each file video whose slug no static video has.
   */
  method MergeWithStatic(staticVideos: seq<Video>, fileVideos: seq<Video>) returns (all: seq<Video>)
    ensures all == staticVideos + FreshVideos(fileVideos, SlugSet(staticVideos))
  {
    all := staticVideos;
    var staticSlugs := SlugSet(staticVideos);
    var i := 0;
    while i < |fileVideos|
      invariant 0 <= i <= |fileVideos|
      invariant all == staticVideos + FreshVideos(fileVideos[..i], staticSlugs)
    {
      FreshVideosAppend(fileVideos[..i], [fileVideos[i]], staticSlugs);
      assert fileVideos[..i + 1] == fileVideos[..i] + [fileVideos[i]];
      if fileVideos[i].slug !in staticSlugs {
        all := all + [fileVideos[i]];
      }
      i := i + 1;
    }
    assert fileVideos[..i] == fileVideos;
  }

  lemma {:induction false} FreshVideosAppend(a: seq<Video>, b: seq<Video>, taken: set<String>)
    ensures FreshVideos(a + b, taken) == FreshVideos(a, taken) + FreshVideos(b, taken)
  {
    if a == [] {
      assert a + b == b;
    } else {
      assert (a + b)[0] == a[0] && (a + b)[1..] == a[1..] + b;
      FreshVideosAppend(a[1..], b, taken);
    }
  }

  /**
   * In the merged catalog a static video is never overridden: looking up the
   * slug of a static video finds the static one, whatever the files hold.
   */
  lemma StaticVideosWin(staticVideos: seq<Video>, fileVideos: seq<Video>, slug: String)
    requires slug in SlugSet(staticVideos)
    ensures FindBySlug(staticVideos + FreshVideos(fileVideos, SlugSet(staticVideos)), slug)
         == FindBySlug(staticVideos, slug)
  {
    FindBySlugAppend(staticVideos, FreshVideos(fileVideos, SlugSet(staticVideos)), slug);
    var v :| v in staticVideos && v.slug == slug;
  }

  /** An ISO `yyyy-mm-dd` date as a number that orders like the date. */
  function DateKey(date: String): int {
    if |date| == 10 && date[4] == '-' && date[7] == '-'
       && AllDigits(date[..4]) && AllDigits(date[5..7]) && AllDigits(date[8..])
    then DigitsValue(date[..4]) * 10000 + DigitsValue(date[5..7]) * 100 + DigitsValue(date[8..])
    else 0
  }

  function UploadKey(v: Video): int { DateKey(v.uploadDate) }

  function NewestFirst(g: Group): Group {
    g.(videos := SortDesc(g.videos, UploadKey))
  }

  /** The grouping of `getVideosByCategoryWithDynamic()`: by category, then newest first in each group. */
  function SortGroups(groups: seq<Group>): (r: seq<Group>)
    ensures |r| == |groups|
    ensures forall k :: 0 <= k < |groups| ==> r[k] == NewestFirst(groups[k])
  {
    seq(|groups|, k requires 0 <= k < |groups| => NewestFirst(groups[k]))
  }

  function GroupNewestFirst(videos: seq<Video>): seq<Group> {
    SortGroups(GroupByCategory(videos))
  }

  /**
   * `getVideosByCategoryWithDynamic()`, with the videos `loadVideosFromFiles()`
   * returns passed in: the merged catalog grouped by category, then each
   * group sorted newest first.
   */
  method VideosByCategoryWithDynamic(staticVideos: seq<Video>, fileVideos: seq<Video>) returns (groups: seq<Group>)
    ensures groups == GroupNewestFirst(staticVideos + FreshVideos(fileVideos, SlugSet(staticVideos)))
  {
    var allVideos := MergeWithStatic(staticVideos, fileVideos);
    groups := PushByCategory(allVideos);
    groups := SortEachGroup(groups);
  }

  /** The first loop: every video pushed onto the list of its category. */
  method PushByCategory(videos: seq<Video>) returns (groups: seq<Group>)
    ensures groups == GroupByCategory(videos)
  {
    groups := [];
    var i := 0;
    while i < |videos|
      invariant 0 <= i <= |videos|
      invariant groups == GroupByCategory(videos[..i])
    {
      groups := PushVideo(groups, videos[..i], videos[i]);
      assert videos[..i + 1] == videos[..i] + [videos[i]];
      i := i + 1;
    }
    assert videos[..i] == videos;
  }

  /** One step of the loop: `v` pushed onto its category, after the videos `done`. */
  method PushVideo(grouped: seq<Group>, ghost done: seq<Video>, v: Video) returns (groups: seq<Group>)
    requires grouped == GroupByCategory(done)
    ensures groups == GroupByCategory(done + [v])
  {
    GroupByCategorySnoc(done, v);
    groups := AddToGroup(grouped, v);
  }

  /** The second loop: each category's list sorted in place, newest first. */
  method SortEachGroup(grouped: seq<Group>) returns (groups: seq<Group>)
    ensures groups == SortGroups(grouped)
  {
    groups := grouped;
    var k := 0;
    while k < |groups|
      invariant 0 <= k <= |groups| == |grouped|
      invariant forall j :: 0 <= j < k ==> groups[j] == NewestFirst(grouped[j])
      invariant forall j :: k <= j < |groups| ==> groups[j] == grouped[j]
    {
      groups := groups[k := groups[k].(videos := SortDesc(groups[k].videos, UploadKey))];
      k := k + 1;
    }
  }

  /**
   * Every group of `GroupNewestFirst` is a reordering of the videos of its
   * category, sorted newest first, with equal dates left in source order.
   */
  lemma GroupNewestFirstCorrect(videos: seq<Video>, k: nat, date: int)
    requires k < |GroupNewestFirst(videos)|
    ensures var g := GroupNewestFirst(videos)[k];
      && g.videos != []
      && SortedDesc(g.videos, UploadKey)
      && multiset(g.videos) == multiset(WithKey(videos, CategoryOf, g.category))
      && WithKey(g.videos, UploadKey, date) == WithKey(WithKey(videos, CategoryOf, g.category), UploadKey, date)
  {
    var groups := GroupByCategory(videos);
    GroupByCategoryCorrect(videos);
    SortDescPermutes(groups[k].videos, UploadKey);
    SortDescStable(groups[k].videos, UploadKey, date);
    assert multiset(SortDesc(groups[k].videos, UploadKey)) != multiset{};
  }
}
