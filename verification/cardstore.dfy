/**
 * The card store of `flashcards.py` and `main.py`: a card is the JSON object
 * read from a subject file, each subject is one `<name>.json` file under the
 * `data` directory, and loading is lenient (a missing or malformed file reads
 * as the empty list). The directory is modelled as a map from path to file
 * content; a path absent from the map is a missing file.
 */
module CardStore {
  import opened PyStr
  import opened PyPath

  /** A card as parsed from JSON: an object with string values, keyed by field name. */
  type Card = map<string, string>

  const TitleKey: string := "naslov"
  const AnswerKey: string := "puni_odgovor"
  const DataDir: string := "data"
  const JsonSuffix: string := ".json"

  /** `card.get(key, default)`. */
  function Get(card: Card, key: string, default: string): string {
    if key in card then card[key] else default
  }

  /** Python's truth value of a dict: `{}` is false. */
  predicate Truthy(card: Card) {
    card != map[]
  }

  /**
   * What a subject file holds: a JSON list of cards, or text `json.load`
   * rejects with a `JSONDecodeError`.
   */
  datatype FileContent = CardList(cards: seq<Card>) | Malformed

  type Files = map<string, FileContent>

  /** `_load_cards()`: the file's cards, or `[]` when the file is missing or malformed. */
  function LenientLoad(files: Files, path: string): seq<Card> {
    if path in files && files[path].CardList? then files[path].cards else []
  }

  /** The card `save_new_card` writes. */
  function NewCard(title: string, answer: string): (c: Card)
    ensures Truthy(c) && Get(c, TitleKey, "") == title && Get(c, AnswerKey, "") == answer
    ensures c.Keys == {TitleKey, AnswerKey}
  {
    var c := map[TitleKey := title, AnswerKey := answer];
    assert TitleKey in c;
    c
  }

  /** Read the file leniently, append `card`, rewrite the whole file. */
  function AppendCard(files: Files, path: string, card: Card): Files {
    files[path := CardList(LenientLoad(files, path) + [card])]
  }

  /**
   * Loading reads back the list last written to a file; a missing file and
   * one `json.load` rejects both read as `[]`; other files do not matter.
   */
  lemma LoadReadsWhatWasWritten(files: Files, path: string, cards: seq<Card>)
    ensures LenientLoad(files[path := CardList(cards)], path) == cards
    ensures LenientLoad(files[path := Malformed], path) == []
    ensures path !in files ==> LenientLoad(files, path) == []
    ensures forall p :: p != path ==> LenientLoad(files[path := CardList(cards)], p) == LenientLoad(files, p)
  {
  }

  /** Appending then loading gives the earlier load followed by the new card; other files are untouched. */
  lemma AppendThenLoad(files: Files, path: string, card: Card)
    ensures LenientLoad(AppendCard(files, path, card), path) == LenientLoad(files, path) + [card]
    ensures forall p :: p != path ==> LenientLoad(AppendCard(files, path, card), p) == LenientLoad(files, p)
  {
  }

  /** The file name `add_new_subject` derives from a subject name: lower case, spaces to '_', then ".json". */
  function SubjectFileName(name: string): (f: string)
    ensures EndsWith(f, JsonSuffix) && |f| == |name| + |JsonSuffix|
    ensures ' ' !in f
    ensures forall i :: 0 <= i < |name| && name[i] == ' ' ==> f[i] == '_'
    ensures forall i :: 0 <= i < |name| && name[i] != ' ' ==> f[i] == LowerChar(name[i])
  {
    ReplaceChar(Lower(name), ' ', '_') + JsonSuffix
  }

  /** The menu name of a subject file: `os.path.splitext(filename)[0].capitalize()`. */
  function DisplayName(filename: string): string {
    Capitalize(SplitExtRoot(filename))
  }

  /** `get_subject_name()`: the display name of the last component of the subject's path. */
  function SubjectName(path: string): string {
    DisplayName(Basename(path))
  }

  /** The entries of a directory listing that end with ".json", in listing order. */
  function JsonFiles(listing: seq<string>): (files: seq<string>)
    ensures forall f :: f in files <==> f in listing && EndsWith(f, JsonSuffix)
    ensures |files| <= |listing|
  {
    if listing == [] then []
    else
      var last := listing[|listing| - 1];
      var rest := JsonFiles(listing[..|listing| - 1]);
      assert listing == listing[..|listing| - 1] + [last];
      if EndsWith(last, JsonSuffix) then rest + [last] else rest
  }

  /** The subject menu of `get_available_subjects()`: a (display name, file name) pair per ".json" entry. */
  function SubjectEntries(listing: seq<string>): seq<(string, string)> {
    if listing == [] then []
    else
      var last := listing[|listing| - 1];
      var rest := SubjectEntries(listing[..|listing| - 1]);
      if EndsWith(last, JsonSuffix) then rest + [(DisplayName(last), last)] else rest
  }

  /** The menu lists exactly the ".json" entries of the listing, in listing order, each under its display name. */
  lemma {:induction false} SubjectEntriesAreJsonFiles(listing: seq<string>)
    ensures |SubjectEntries(listing)| == |JsonFiles(listing)|
    ensures forall i :: 0 <= i < |SubjectEntries(listing)| ==>
      SubjectEntries(listing)[i] == (DisplayName(JsonFiles(listing)[i]), JsonFiles(listing)[i])
  {
    if listing != [] {
      SubjectEntriesAreJsonFiles(listing[..|listing| - 1]);
    }
  }

  /** A file picked from the menu shows the same name inside the subject as in the menu. */
  lemma MenuNameMatchesSubjectName(filename: string)
    requires '/' !in filename
    ensures SubjectName(PyPath.Join(DataDir, filename)) == DisplayName(filename)
  {
    var path := PyPath.Join(DataDir, filename);
    assert path == DataDir + "/" + filename;
    var k := RFind(path, '/');
    assert path[|DataDir|] == '/';
    assert k == |DataDir|;
    assert path[k + 1..] == filename;
  }

  /**
   * A subject created under `name` is listed under the capitalised file stem,
   * provided the name has no '/' and some character other than '.'.
   */
  lemma CreatedSubjectDisplayName(name: string)
    requires '/' !in name
    requires exists i :: 0 <= i < |name| && name[i] != '.'
    ensures DisplayName(SubjectFileName(name)) == Capitalize(ReplaceChar(Lower(name), ' ', '_'))
  {
    var stem := ReplaceChar(Lower(name), ' ', '_');
    var f := stem + JsonSuffix;
    assert f == SubjectFileName(name);
    var i :| 0 <= i < |name| && name[i] != '.';
    assert f[i] != '.';
    assert forall j :: 0 <= j < |f| ==> f[j] != '/' by {
      forall j | 0 <= j < |f| ensures f[j] != '/' {
        if j < |stem| {
          assert name[j] != '/';
        } else {
          assert f[j] == JsonSuffix[j - |stem|];
        }
      }
    }
    var dot := RFind(f, '.');
    assert f[|stem|] == '.';
    assert dot == |stem|;
    assert RFind(f, '/') == -1;
    assert HasNonDot(f, 0, dot);
    assert SplitExtRoot(f) == f[..dot] == stem;
  }

  /**
   * A name made only of dots keeps its ".json": `splitext` finds nothing but
   * dots before the last '.', so the menu lists the whole file name ("." is
   * listed as "..json").
   */
  lemma DotNameKeepsExtension(name: string)
    requires name != [] && forall i :: 0 <= i < |name| ==> name[i] == '.'
    ensures DisplayName(SubjectFileName(name)) == SubjectFileName(name)
  {
    var f := SubjectFileName(name);
    var n := |name|;
    assert forall i :: 0 <= i < n ==> f[i] == '.';
    assert f[n..] == JsonSuffix;
    assert forall i :: n < i < |f| ==> f[i] != '.' by {
      forall i | n < i < |f| ensures f[i] != '.' {
        assert f[i] == JsonSuffix[i - n];
      }
    }
    assert f[n] == JsonSuffix[0] == '.';
    var dot := RFind(f, '.');
    assert dot >= n;
    assert dot == n;
    assert forall i :: 0 <= i < |f| ==> f[i] != '/';
    assert RFind(f, '/') == -1;
    assert !HasNonDot(f, 0, n);
    assert SplitExtRoot(f) == f;
    assert forall i :: 0 <= i < |f| ==> LowerChar(f[i]) == f[i] by {
      forall i | 0 <= i < |f| ensures LowerChar(f[i]) == f[i] {
        if i >= n {
          assert f[i] == JsonSuffix[i - n];
        }
      }
    }
    assert Lower(f[1..]) == f[1..];
  }
}
