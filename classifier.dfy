/** Classification: the folder a file goes to is the first category, in
    enumeration order, whose list holds the file's lower-cased extension,
    and "Others" when there is none. */
module Classifier {
  import opened Text
  import opened Paths
  import opened Config

  /** The fallback folder for files no category claims. */
  const Others := "Others"

  /** Index of the first category whose list contains `ext`, or `|t|`. */
  function FirstMatch(t: Table, ext: string): (i: nat)
    ensures i <= |t|
    ensures i < |t| ==> ext in t[i].extensions
    ensures forall j :: 0 <= j < i ==> ext !in t[j].extensions
  {
    if t == [] then 0
    else if ext in t[0].extensions then 0
    else 1 + FirstMatch(t[1..], ext)
  }

  /** The extension the lists are searched for: `GetExtension(...).ToLower()`. */
  function LookupExtension(path: string): string {
    Lower(Extension(path))
  }

  /** The folder the file at `path` is sorted into. */
  function FolderFor(t: Table, path: string): (folder: string)
    ensures folder == Others || exists c :: c in t && c.name == folder && LookupExtension(path) in c.extensions
    ensures (forall c :: c in t ==> LookupExtension(path) !in c.extensions) ==> folder == Others
    ensures forall i :: 0 <= i < |t| && LookupExtension(path) in t[i].extensions
                        && (forall j :: 0 <= j < i ==> LookupExtension(path) !in t[j].extensions)
                        ==> folder == t[i].name
  {
    var i := FirstMatch(t, LookupExtension(path));
    if i < |t| then t[i].name else Others
  }

  /** Where categories never share an extension, a category that lists the
      extension is the one chosen, wherever it stands in the table. */
  lemma ChosenByMembership(t: Table, c: Category, path: string)
    requires Disjoint(t) && c in t && LookupExtension(path) in c.extensions
    ensures FolderFor(t, path) == c.name
  {
    var i := FirstMatch(t, LookupExtension(path));
    assert t[i] in t;
  }

  /** With non-overlapping lists the order of the categories does not
      matter: any reordering of the same categories classifies alike. */
  lemma OrderIrrelevantWhenDisjoint(t: Table, u: Table, path: string)
    requires Disjoint(t) && forall c :: c in t <==> c in u
    ensures FolderFor(t, path) == FolderFor(u, path)
  {
    var ext := LookupExtension(path);
    if c :| c in t && ext in c.extensions {
      ChosenByMembership(t, c, path);
      ChosenByMembership(u, c, path);
    }
  }

  /** With the defaults, classification does not depend on table order. */
  lemma DefaultOrderIrrelevant(u: Table, path: string)
    requires forall c :: c in DefaultTable <==> c in u
    ensures FolderFor(u, path) == FolderFor(DefaultTable, path)
  {
    DefaultTableDisjoint();
    OrderIrrelevantWhenDisjoint(DefaultTable, u, path);
  }

  /** A file without an extension is sorted into "Others" by the defaults. */
  lemma ExtensionlessToOthers(path: string)
    requires '.' !in FileName(path)
    ensures FolderFor(DefaultTable, path) == Others
  {
    assert LookupExtension(path) == "";
    assert forall c :: c in DefaultTable ==> forall e :: e in c.extensions ==> |e| > 0;
  }

  /** The example paths are files of the directory "in". */
  lemma ExamplePathsSpelled()
    ensures "in/report.pdf" == Combine("in", "report.pdf")
    ensures "in/photo.JPG" == Combine("in", "photo.JPG")
    ensures "in/note" == Combine("in", "note")
  {
  }

  lemma ReportExample()
    ensures FolderFor(DefaultTable, "in/report.pdf") == "Documents"
  {
    ExamplePathsSpelled();
    CombineParts("in", "report.pdf");
    LastIndexOfIs("report.pdf", '.', 6);
    assert Lower(".pdf") == ".pdf";
  }

  /** The extension is matched case-insensitively: "photo.JPG" is an image. */
  lemma PhotoExample()
    ensures FolderFor(DefaultTable, "in/photo.JPG") == "Images"
  {
    ExamplePathsSpelled();
    CombineParts("in", "photo.JPG");
    LastIndexOfIs("photo.JPG", '.', 5);
    assert Lower(".JPG") == ".jpg";
    DefaultTableDisjoint();
    ChosenByMembership(DefaultTable, ImagesFolder, "in/photo.JPG");
  }

  lemma NoteExample()
    ensures FolderFor(DefaultTable, "in/note") == Others
  {
    ExamplePathsSpelled();
    CombineParts("in", "note");
    ExtensionlessToOthers("in/note");
  }
}
