/** The category table: the configuration-file parser, the dictionary
    store it fills and the built-in defaults.

    The table is the program's `Dictionary<string, List<string>>`, modelled
    as a sequence of entries in enumeration order. Modelling assumption (a
    property of the .NET dictionary in practice, not a documented
    guarantee): enumeration follows insertion order, and storing under a
    key already present keeps that key's position. */
module Config {
  import opened Wrappers
  import opened Text

  datatype Category = Category(name: string, extensions: seq<string>)

  type Table = seq<Category>

  /** The keys, in enumeration order. */
  function Names(t: Table): seq<string> {
    seq(|t|, i requires 0 <= i < |t| => t[i].name)
  }

  predicate Distinct(xs: seq<string>) {
    forall i, j :: 0 <= i < j < |xs| ==> xs[i] != xs[j]
  }

  /** Every key appears once. */
  predicate UniqueNames(t: Table) {
    Distinct(Names(t))
  }

  /** The list stored under key `k`, if any. */
  function Lookup(t: Table, k: string): Option<seq<string>> {
    if t == [] then None
    else if t[0].name == k then Some(t[0].extensions)
    else Lookup(t[1..], k)
  }

  /** `fileTypes[c.name] = c.extensions`: replaces the list of a present key
      in place, or adds the new key at the end. */
  function Put(t: Table, c: Category): (r: Table)
    ensures Names(r) == if c.name in Names(t) then Names(t) else Names(t) + [c.name]
    ensures Lookup(r, c.name) == Some(c.extensions)
    ensures forall k :: k != c.name ==> Lookup(r, k) == Lookup(t, k)
  {
    if t == [] then [c]
    else
      NamesCons(t[0], t[1..]);
      assert t == [t[0]] + t[1..];
      if t[0].name == c.name then
        NamesCons(c, t[1..]);
        [c] + t[1..]
      else
        var rest := Put(t[1..], c);
        NamesCons(t[0], rest);
        assert ([t[0]] + rest)[1..] == rest;
        [t[0]] + rest
  }

  /** The keys of a table with one more category in front. */
  lemma NamesCons(c: Category, t: Table)
    ensures Names([c] + t) == [c.name] + Names(t)
  {
  }

  /** Storing keeps every key unique. */
  lemma PutKeepsUniqueNames(t: Table, c: Category)
    requires UniqueNames(t)
    ensures UniqueNames(Put(t, c))
  {
    var names := Names(t);
    if c.name !in names {
      assert forall i :: 0 <= i < |names| ==> (names + [c.name])[i] == names[i];
    }
  }

  /** The extension list of a configuration line: every comma-separated
      entry trimmed and lower-cased. Empty entries stay, and no '.' is added. */
  function NormalizeExtensions(list: string): (exts: seq<string>)
    ensures |exts| == Count(list, ',') + 1
    ensures forall k :: 0 <= k < |exts| ==> exts[k] == Lower(Trim(Split(list, ',')[k]))
    ensures forall k :: 0 <= k < |exts| ==> NoEdgeSpace(exts[k]) && NoUpper(exts[k])
  {
    var pieces := Split(list, ',');
    var exts := seq(|pieces|, k requires 0 <= k < |pieces| => Lower(Trim(pieces[k])));
    assert forall k :: 0 <= k < |exts| ==> NoEdgeSpace(exts[k]) && NoUpper(exts[k]) by {
      forall k | 0 <= k < |exts|
        ensures NoEdgeSpace(exts[k]) && NoUpper(exts[k])
      {
        LowerKeepsTrimmed(Trim(pieces[k]));
      }
    }
    exts
  }

  /** One configuration line: used only when splitting it on ':' gives
      exactly two parts, i.e. it holds exactly one ':'; then the folder is
      the trimmed text before it and the extensions come from the text after. */
  function ParseLine(line: string): (r: Option<Category>)
    ensures r.Some? <==> Count(line, ':') == 1
    ensures r.Some? ==> exists key, list :: line == key + ":" + list && ':' !in key && ':' !in list
                                            && r.value == Category(Trim(key), NormalizeExtensions(list))
  {
    var parts := Split(line, ':');
    if |parts| == 2 then
      assert line == parts[0] + ":" + parts[1] by {
        assert Join(parts[1..], ':') == parts[1];
      }
      Some(Category(Trim(parts[0]), NormalizeExtensions(parts[1])))
    else None
  }

  /** The table the loop over the configuration lines builds: each accepted
      line stored in turn, malformed lines skipped. */
  function ParseConfig(lines: seq<string>): (t: Table)
    ensures UniqueNames(t)
  {
    if lines == [] then []
    else
      var t := ParseConfig(lines[..|lines| - 1]);
      match ParseLine(lines[|lines| - 1])
      case None => t
      case Some(c) => PutKeepsUniqueNames(t, c); Put(t, c)
  }

  /** One more line of the file: stored when accepted, skipped otherwise. */
  lemma ParseConfigNext(lines: seq<string>, i: nat)
    requires i < |lines|
    ensures ParseConfig(lines[..i + 1]) ==
            if ParseLine(lines[i]).Some? then Put(ParseConfig(lines[..i]), ParseLine(lines[i]).value)
            else ParseConfig(lines[..i])
  {
    assert lines[..i + 1][..i] == lines[..i];
  }

  /** Line `line` is accepted and stores under key `k`. */
  predicate Defines(line: string, k: string) {
    ParseLine(line).Some? && ParseLine(line).value.name == k
  }

  /** A malformed line (no ':' or more than one) adds nothing. */
  lemma MalformedLineSkipped(lines: seq<string>, line: string)
    requires Count(line, ':') != 1
    ensures ParseConfig(lines + [line]) == ParseConfig(lines)
  {
    assert (lines + [line])[..|lines|] == lines;
  }

  /** The last line decides key `k` when it defines it ... */
  lemma LastLineDefines(lines: seq<string>, k: string)
    requires lines != [] && Defines(lines[|lines| - 1], k)
    ensures Lookup(ParseConfig(lines), k) == Some(ParseLine(lines[|lines| - 1]).value.extensions)
  {
  }

  /** ... and leaves `k` as it was otherwise. */
  lemma LastLineKeeps(lines: seq<string>, k: string)
    requires lines != [] && !Defines(lines[|lines| - 1], k)
    ensures Lookup(ParseConfig(lines), k) == Lookup(ParseConfig(lines[..|lines| - 1]), k)
  {
  }

  /** Key `k` maps to the list of the LAST accepted line that defines it. */
  lemma {:induction false} LookupIsLastDefinition(lines: seq<string>, k: string, i: nat)
    requires i < |lines| && Defines(lines[i], k)
    requires forall j :: i < j < |lines| ==> !Defines(lines[j], k)
    ensures Lookup(ParseConfig(lines), k) == Some(ParseLine(lines[i]).value.extensions)
  {
    if i < |lines| - 1 {
      var init := lines[..|lines| - 1];
      LookupIsLastDefinition(init, k, i);
      LastLineKeeps(lines, k);
    } else {
      LastLineDefines(lines, k);
    }
  }

  /** A key no accepted line defines is absent. */
  lemma {:induction false} LookupUndefined(lines: seq<string>, k: string)
    requires forall j :: 0 <= j < |lines| ==> !Defines(lines[j], k)
    ensures Lookup(ParseConfig(lines), k) == None
  {
    if lines != [] {
      var init := lines[..|lines| - 1];
      assert forall j :: 0 <= j < |init| ==> init[j] == lines[j];
      LookupUndefined(init, k);
      LastLineKeeps(lines, k);
    }
  }

  /** The keys of the accepted lines, line by line. */
  function AcceptedNames(lines: seq<string>): seq<string> {
    if lines == [] then []
    else
      var init := AcceptedNames(lines[..|lines| - 1]);
      match ParseLine(lines[|lines| - 1])
      case None => init
      case Some(c) => init + [c.name]
  }

  /** `xs` with every repetition of an earlier element dropped. */
  function FirstOccurrences(xs: seq<string>): seq<string> {
    if xs == [] then []
    else
      var init := FirstOccurrences(xs[..|xs| - 1]);
      if xs[|xs| - 1] in init then init else init + [xs[|xs| - 1]]
  }

  /** Enumeration order: each key sits where its first accepted line put it. */
  lemma {:induction false} ConfigKeyOrder(lines: seq<string>)
    ensures Names(ParseConfig(lines)) == FirstOccurrences(AcceptedNames(lines))
  {
    if lines != [] {
      ConfigKeyOrder(lines[..|lines| - 1]);
      var names := AcceptedNames(lines[..|lines| - 1]);
      match ParseLine(lines[|lines| - 1])
      case None =>
      case Some(c) =>
        assert (names + [c.name])[..|names|] == names;
    }
  }

  /** "Docs:.pdf" splits on ':' into "Docs" and ".pdf". */
  lemma SplitExample()
    ensures Split("Docs:.pdf", ':') == ["Docs", ".pdf"]
  {
    assert "Docs:.pdf" == Join(["Docs", ".pdf"], ':');
    SplitJoin(["Docs", ".pdf"], ':');
  }

  /** The list ".pdf" is the single extension ".pdf". */
  lemma NormalizeExample()
    ensures NormalizeExtensions(".pdf") == [".pdf"]
  {
    NormalizeClean(".pdf");
  }

  /** A trimmed, lower-case list without a comma is its own single entry. */
  lemma NormalizeClean(list: string)
    requires ',' !in list && NoEdgeSpace(list) && NoUpper(list)
    ensures NormalizeExtensions(list) == [list]
  {
    NormalizeSingle(list);
    TrimKeepsTrimmed(list);
    LowerKeepsLower(list);
  }

  /** A list without a comma is one entry. */
  lemma NormalizeSingle(list: string)
    requires ',' !in list
    ensures NormalizeExtensions(list) == [Lower(Trim(list))]
  {
    SplitWord(list, ',');
  }

  /** "Docs:.pdf" is the rule Docs -> [".pdf"]. */
  lemma WellFormedLineExample()
    ensures ParseLine("Docs:.pdf") == Some(Category("Docs", [".pdf"]))
  {
    SplitExample();
    NormalizeExample();
    TrimKeepsTrimmed("Docs");
  }

  /** A single "Docs:.pdf" line gives the one rule Docs -> [".pdf"]. */
  lemma SingleLineExample()
    ensures ParseConfig(["Docs:.pdf"]) == [Category("Docs", [".pdf"])]
  {
    WellFormedLineExample();
    assert ["Docs:.pdf"][..0] == [];
  }

  /** One well-formed line and one without a colon give just the first rule. */
  lemma MalformedLineExample()
    ensures ParseConfig(["Docs:.pdf", "notes"]) == [Category("Docs", [".pdf"])]
  {
    var lines := ["Docs:.pdf", "notes"];
    assert lines[..1] == ["Docs:.pdf"];
    assert Count(lines[1], ':') == 0;
    SingleLineExample();
  }

  /** The built-in lists, one per default folder. */
  const DocumentExtensions := [".pdf", ".docx", ".txt", ".doc", ".odt", ".rtf"]
  const ImageExtensions := [".jpg", ".jpeg", ".png", ".gif", ".bmp", ".tiff", ".svg"]
  const SpreadsheetExtensions := [".xlsx", ".xls", ".csv", ".ods"]
  const PresentationExtensions := [".pptx", ".ppt", ".odp"]
  const AudioExtensions := [".mp3", ".wav", ".flac", ".aac", ".ogg"]
  const VideoExtensions := [".mp4", ".avi", ".mkv", ".mov", ".wmv", ".flv"]
  const ArchiveExtensions := [".zip", ".rar", ".7z", ".tar", ".gz"]

  /** The built-in categories, one per default folder. */
  const DocumentsFolder := Category("Documents", DocumentExtensions)
  const ImagesFolder := Category("Images", ImageExtensions)
  const SpreadsheetsFolder := Category("Spreadsheets", SpreadsheetExtensions)
  const PresentationsFolder := Category("Presentations", PresentationExtensions)
  const AudioFolder := Category("Audio", AudioExtensions)
  const VideosFolder := Category("Videos", VideoExtensions)
  const ArchivesFolder := Category("Archives", ArchiveExtensions)

  /** The built-in table used when no configuration path is given. */
  const DefaultTable: Table := [
    DocumentsFolder, ImagesFolder, SpreadsheetsFolder, PresentationsFolder,
    AudioFolder, VideosFolder, ArchivesFolder
  ]

  /** No extension is listed under two different folder names. */
  predicate Disjoint(t: Table) {
    forall c, d, e :: c in t && d in t && c.name != d.name && e in c.extensions ==> e !in d.extensions
  }

  predicate Apart(a: seq<string>, b: seq<string>) {
    forall e :: e in a ==> e !in b
  }

  lemma DocumentsApart()
    ensures Apart(DocumentExtensions, ImageExtensions) && Apart(DocumentExtensions, SpreadsheetExtensions)
    ensures Apart(DocumentExtensions, PresentationExtensions) && Apart(DocumentExtensions, AudioExtensions)
    ensures Apart(DocumentExtensions, VideoExtensions) && Apart(DocumentExtensions, ArchiveExtensions)
  {
  }

  lemma ImagesApart()
    ensures Apart(ImageExtensions, SpreadsheetExtensions) && Apart(ImageExtensions, PresentationExtensions)
    ensures Apart(ImageExtensions, AudioExtensions) && Apart(ImageExtensions, VideoExtensions)
    ensures Apart(ImageExtensions, ArchiveExtensions)
  {
  }

  lemma OfficeApart()
    ensures Apart(SpreadsheetExtensions, PresentationExtensions) && Apart(SpreadsheetExtensions, AudioExtensions)
    ensures Apart(SpreadsheetExtensions, VideoExtensions) && Apart(SpreadsheetExtensions, ArchiveExtensions)
    ensures Apart(PresentationExtensions, AudioExtensions) && Apart(PresentationExtensions, VideoExtensions)
    ensures Apart(PresentationExtensions, ArchiveExtensions)
  {
  }

  lemma MediaApart()
    ensures Apart(AudioExtensions, VideoExtensions) && Apart(AudioExtensions, ArchiveExtensions)
    ensures Apart(VideoExtensions, ArchiveExtensions)
  {
  }

  /** A category whose list shares nothing with any list of a table without
      overlaps can be put in front of it. */
  lemma DisjointCons(c: Category, t: Table)
    requires Disjoint(t)
    requires forall d :: d in t ==> Apart(c.extensions, d.extensions)
    ensures Disjoint([c] + t)
  {
    forall a, b, e | a in [c] + t && b in [c] + t && a.name != b.name && e in a.extensions
      ensures e !in b.extensions
    {
      if a != c && b == c {
        assert Apart(c.extensions, a.extensions);
      }
    }
  }

  /** The last three default lists do not overlap. */
  lemma MediaDisjoint()
    ensures Disjoint([AudioFolder, VideosFolder, ArchivesFolder])
  {
    MediaApart();
    DisjointCons(VideosFolder, [ArchivesFolder]);
    assert [VideosFolder] + [ArchivesFolder] == [VideosFolder, ArchivesFolder];
    DisjointCons(AudioFolder, [VideosFolder, ArchivesFolder]);
    assert [AudioFolder] + [VideosFolder, ArchivesFolder] == [AudioFolder, VideosFolder, ArchivesFolder];
  }

  /** The last five default lists do not overlap. */
  lemma OfficeDisjoint()
    ensures Disjoint([SpreadsheetsFolder, PresentationsFolder, AudioFolder, VideosFolder, ArchivesFolder])
  {
    var media := [AudioFolder, VideosFolder, ArchivesFolder];
    MediaDisjoint();
    OfficeApart();
    DisjointCons(PresentationsFolder, media);
    DisjointCons(SpreadsheetsFolder, [PresentationsFolder] + media);
    assert [SpreadsheetsFolder] + ([PresentationsFolder] + media)
        == [SpreadsheetsFolder, PresentationsFolder, AudioFolder, VideosFolder, ArchivesFolder];
  }

  /** The last six default lists do not overlap. */
  lemma ImagesDisjoint()
    ensures Disjoint(DefaultTable[1..])
  {
    var office := [SpreadsheetsFolder, PresentationsFolder, AudioFolder, VideosFolder, ArchivesFolder];
    OfficeDisjoint();
    ImagesApart();
    DisjointCons(ImagesFolder, office);
    assert [ImagesFolder] + office == DefaultTable[1..];
  }

  /** The built-in lists do not overlap, and every key appears once. */
  lemma DefaultTableDisjoint()
    ensures Disjoint(DefaultTable) && UniqueNames(DefaultTable)
  {
    ImagesDisjoint();
    DocumentsApart();
    DisjointCons(DocumentsFolder, DefaultTable[1..]);
    assert [DocumentsFolder] + DefaultTable[1..] == DefaultTable;
  }
}
