/**
 * The openings directory and the operations on it: storing an opening's card
 * once, checking whether it is stored, handing it to the flashcard tool,
 * listing the stored openings by ECO volume, and tabulating a batch of
 * openings as new or known.
 */
module OpeningStore {
  import opened Wrappers
  import opened Strings
  import opened Openings
  import opened Eco
  import opened Registry

  /** The directory after `store(force)`: the card is written unless it is there and `force` is off. */
  function AfterStore(files: map<string, string>, o: Opening, force: bool): (r: map<string, string>)
    ensures Identity(o) in r
    ensures Identity(o) !in files || force ==> r[Identity(o)] == StoredText(o)
    ensures Identity(o) in files && !force ==> r == files
    ensures forall k :: k != Identity(o) ==> (k in r <==> k in files) && (k in r ==> r[k] == files[k])
  {
    if Identity(o) !in files || force then files[Identity(o) := StoredText(o)] else files
  }

  /** Storing again without `force` changes nothing, whatever the first call did. */
  lemma StoreIdempotent(files: map<string, string>, o: Opening, force: bool)
    ensures AfterStore(AfterStore(files, o, force), o, false) == AfterStore(files, o, force)
  {
  }

  /** Storing twice with `force` is storing once: the key and the content stay the same. */
  lemma ForcedStoreTwice(files: map<string, string>, o: Opening)
    ensures AfterStore(AfterStore(files, o, true), o, true) == AfterStore(files, o, true)
  {
  }

  /** The two messages `store` logs. */
  datatype StoreLog = Storing(key: string) | Ignoring(key: string)

  /** What `ankify` does: run the flashcard tool on the card, or tell the user to store it first. */
  datatype AnkifyEffect = RunTool(args: seq<string>, input: string) | ConsoleHint(message: string)

  const StoreFirstHint := "To ankify, you first need to store the opening with `opening.store()`"

  /** The file name of an opening's card: its key with the `.md` suffix. */
  function FileName(o: Opening): (name: string)
    ensures |name| == |Identity(o)| + 3
    ensures name[..|Identity(o)|] == Identity(o) && name[|Identity(o)|..] == ".md"
  {
    Identity(o) + ".md"
  }

  /** The `path` property: the card's file inside the opening's own openings directory. */
  function FilePath(o: Opening): (path: string)
    ensures |path| == |o.paths.openingsDir| + 1 + |FileName(o)|
    ensures path[..|o.paths.openingsDir|] == o.paths.openingsDir
    ensures path[|o.paths.openingsDir|] == '/'
    ensures path[|o.paths.openingsDir| + 1..] == FileName(o)
  {
    o.paths.openingsDir + "/" + FileName(o)
  }

  /** The stems of the directory in some order: the order of a directory listing is not known. */
  ghost function Enumerate(keys: set<string>): (r: seq<string>)
    ensures multiset(r) == multiset(keys)
  {
    if keys == {} then []
    else
      var x :| x in keys;
      assert multiset(keys) == multiset{x} + multiset(keys - {x});
      [x] + Enumerate(keys - {x})
  }

  /** `sorted` of the directory's stems. */
  ghost function SortedKeys(keys: set<string>): (r: seq<string>)
    ensures Sorted(r) && multiset(r) == multiset(keys) && |r| == |keys|
  {
    var r := Sort(Enumerate(keys));
    assert |multiset(r)| == |r| && |multiset(keys)| == |keys|;
    r
  }

  /** Any sorted list of the stems is the sorted list of the stems. */
  lemma SortedKeysOf(keys: set<string>, s: seq<string>)
    requires Sorted(s) && multiset(s) == multiset(keys)
    ensures SortedKeys(keys) == s
  {
    SortedUnique(SortedKeys(keys), s);
  }

  /** Three stored openings, two of volume A and one of volume B, sorted. */
  lemma ExampleKeysSorted()
    ensures SortedKeys({"A12 - X", "A45 - Y", "B10 - Z"}) == ["A12 - X", "A45 - Y", "B10 - Z"]
  {
    var s := ["A12 - X", "A45 - Y", "B10 - Z"];
    ExampleStemsSorted(s);
    assert multiset(s) == multiset({"A12 - X", "A45 - Y", "B10 - Z"});
    SortedKeysOf({"A12 - X", "A45 - Y", "B10 - Z"}, s);
  }

  lemma ExampleStemsSorted(s: seq<string>)
    requires s == ["A12 - X", "A45 - Y", "B10 - Z"]
    ensures Sorted(s)
  {
    assert s[0][0] == s[1][0] && s[0][1] < s[1][1] && s[1][0] < s[2][0] && s[0][0] < s[2][0];
    assert Below(s[0][1..], s[1][1..]);
    assert Below(s[0], s[1]) && Below(s[1], s[2]) && Below(s[0], s[2]);
    BelowAsymmetric(s[0], s[1]);
    BelowAsymmetric(s[1], s[2]);
    BelowAsymmetric(s[0], s[2]);
  }

  lemma ExampleGrouping()
    ensures Grouping(["A12 - X", "A45 - Y", "B10 - Z"])
            == Ok([Group('A', ["A12 - X", "A45 - Y"]), Group('B', ["B10 - Z"])])
  {
    var x, y, z := "A12 - X", "A45 - Y", "B10 - Z";
    var none: seq<Group> := [];
    var g1 := [Group('A', [x])];
    var g2 := [Group('A', [x, y])];
    assert x[0] == 'A' && y[0] == 'A' && z[0] == 'B';
    assert Grouping([]) == Ok(none);
    assert AddStem(none, x) == g1;
    GroupingSnoc([], x);
    assert Grouping([x]) == Ok(g1);
    assert IndexOf(g1, 'A') == 0 && [x] + [y] == [x, y];
    assert AddStem(g1, y) == g2;
    GroupingSnoc([x], y);
    assert Grouping([x, y]) == Ok(g2);
    assert IndexOf(g2[1..], 'B') == 0;
    assert IndexOf(g2, 'B') == 1;
    assert AddStem(g2, z) == g2 + [Group('B', [z])];
    GroupingSnoc([x, y], z);
    assert [x, y] + [z] == [x, y, z];
    assert g2 + [Group('B', [z])] == [Group('A', [x, y]), Group('B', [z])];
    assert Grouping([x, y, z]) == Ok([Group('A', [x, y]), Group('B', [z])]);
  }

  lemma ExampleEmit()
    ensures Emit([Group('A', ["A12 - X", "A45 - Y"]), Group('B', ["B10 - Z"])], None)
            == Listing([Header(A, 2), Member("A12 - X"), Member("A45 - Y"), Blank,
                        Header(B, 1), Member("B10 - Z"), Blank], None)
  {
    var a := Group('A', ["A12 - X", "A45 - Y"]);
    var b := Group('B', ["B10 - Z"]);
    assert [a, b][1..] == [b] && [b][1..] == [];
    assert MemberLines(a.members) == [Member("A12 - X"), Member("A45 - Y")];
    assert MemberLines(b.members) == [Member("B10 - Z")];
    assert Lookup(['A']) == Some(A) && Lookup(['B']) == Some(B);
  }

  /**
   * Listing them unfiltered prints the total 3, then volume A with its two
   * openings, then volume B with its one.
   */
  lemma ExampleListing()
    ensures Report(SortedKeys({"A12 - X", "A45 - Y", "B10 - Z"}), None)
            == Listing([TotalLine(3),
                        Header(A, 2), Member("A12 - X"), Member("A45 - Y"), Blank,
                        Header(B, 1), Member("B10 - Z"), Blank], None)
  {
    ExampleKeysSorted();
    ExampleReport();
  }

  lemma ExampleReport()
    ensures Report(["A12 - X", "A45 - Y", "B10 - Z"], None)
            == Listing([TotalLine(3),
                        Header(A, 2), Member("A12 - X"), Member("A45 - Y"), Blank,
                        Header(B, 1), Member("B10 - Z"), Blank], None)
  {
    ExampleGrouping();
    ExampleEmit();
  }

  /**
   * Listing them with the filter for volume B prints the total and nothing
   * else: the filter compares the one-letter key with the volume's description.
   */
  lemma ExampleListingFilteredByVolume()
    ensures Report(SortedKeys({"A12 - X", "A45 - Y", "B10 - Z"}), Some(B)) == Listing([TotalLine(3)], None)
  {
    ExampleKeysSorted();
    ExampleStemsFilteredByVolume(SortedKeys({"A12 - X", "A45 - Y", "B10 - Z"}));
  }

  lemma ExampleStemsFilteredByVolume(s: seq<string>)
    requires s == ["A12 - X", "A45 - Y", "B10 - Z"]
    ensures Report(s, Some(B)) == Listing([TotalLine(3)], None)
  {
    ReportWithVolumeFilter(s, B);
    assert s[0] != [] && s[1] != [] && s[2] != [];
  }

  /** The style a table cell is printed in. */
  datatype Style = Plain | Grey | Green

  datatype Cell = Cell(text: string, style: Style)

  datatype Table = Table(title: string, columns: seq<string>, rows: seq<seq<Cell>>)

  /** The column headings `print_openings` declares. */
  const TableColumns: seq<string> := ["", "Name", "ECO"]

  /**
   * One openings directory, `dir`, with its cards: file stem to file content.
   * An opening looks for its card in its own `paths.openings_dir`, so the
   * operations on one opening take openings that point at this directory.
   */
  class OpeningsDir {
    const dir: string
    var files: map<string, string>

    constructor (dir: string, files: map<string, string>)
      ensures this.dir == dir && this.files == files
    {
      this.dir := dir;
      this.files := files;
    }

    /** `opening.exists()`: the card's file, named by its path, is in the directory. */
    predicate Exists(o: Opening)
      requires o.paths.openingsDir == dir
      reads this
      ensures Exists(o) <==> FilePath(o)[|dir| + 1..|FilePath(o)| - 3] in files
    {
      assert FilePath(o)[|dir| + 1..|FilePath(o)| - 3] == FileName(o)[..|Identity(o)|];
      Identity(o) in files
    }

    /** `opening.store(force)`. */
    method Store(o: Opening, force: bool) returns (log: StoreLog)
      requires o.paths.openingsDir == dir
      modifies this
      ensures files == AfterStore(old(files), o, force)
      ensures log == if !old(Exists(o)) || force then Storing(Identity(o)) else Ignoring(Identity(o))
      ensures Exists(o)
    {
      if !Exists(o) || force {
        log := Storing(Identity(o));
        files := files[Identity(o) := StoredText(o)];
      } else {
        log := Ignoring(Identity(o));
      }
    }

    /** `opening.ankify()`: the tool runs exactly when the opening is stored. */
    method Ankify(o: Opening) returns (effect: AnkifyEffect)
      requires o.paths.openingsDir == dir
      ensures effect.RunTool? <==> Exists(o)
      ensures effect.RunTool? ==> effect.args == ["apy", "add-from-file", FilePath(o)] && effect.input == "n"
      ensures effect.ConsoleHint? ==> effect.message == StoreFirstHint
    {
      if Exists(o) {
        effect := RunTool(["apy", "add-from-file", FilePath(o)], "n");
      } else {
        effect := ConsoleHint(StoreFirstHint);
      }
    }

    /** `list_known_openings(eco_volume)`: what it prints, and the error that stops it, if any. */
    method ListKnownOpenings(filter: Option<ECOVolume>) returns (out: Listing)
      ensures out == Report(SortedKeys(files.Keys), filter)
    {
      var remaining := files.Keys;
      var stems: seq<string> := [];
      while remaining != {}
        invariant multiset(stems) + multiset(remaining) == multiset(files.Keys)
        decreases remaining
      {
        var stem :| stem in remaining;
        assert multiset(remaining) == multiset{stem} + multiset(remaining - {stem});
        stems := stems + [stem];
        remaining := remaining - {stem};
      }
      var known := Sort(stems);
      SortedKeysOf(files.Keys, known);
      var lines := [TotalLine(|known|)];
      var grouped := GroupStems(known);
      if grouped.Err? {
        return Listing(lines, Some(grouped.error));
      }
      var emitted := EmitGroups(grouped.value, filter);
      out := Prefixed(lines, emitted);
    }

    /**
     * `print_openings(openings)`: one row per opening in input order; a new
     * opening is marked and green, a stored one unmarked and grey.  The row
     * puts the ECO code under the column headed "Name" and the name under
     * "ECO".
     */
    method PrintOpenings(openings: seq<Opening>) returns (table: Table)
      requires forall i :: 0 <= i < |openings| ==> openings[i].paths.openingsDir == dir
      ensures table.title == "New Openings" && table.columns == TableColumns
      ensures |table.rows| == |openings|
      ensures forall i :: 0 <= i < |openings| ==>
        && |table.rows[i]| == 3
        && table.rows[i][0] == Cell(if Exists(openings[i]) then "" else ":new:", Plain)
        && table.rows[i][1].text == openings[i].eco
        && table.rows[i][2].text == openings[i].name
        && table.rows[i][1].style == table.rows[i][2].style == (if Exists(openings[i]) then Grey else Green)
    {
      var rows: seq<seq<Cell>> := [];
      var i := 0;
      while i < |openings|
        invariant 0 <= i <= |openings|
        invariant |rows| == i
        invariant forall k :: 0 <= k < i ==>
          && |rows[k]| == 3
          && rows[k][0] == Cell(if Exists(openings[k]) then "" else ":new:", Plain)
          && rows[k][1].text == openings[k].eco
          && rows[k][2].text == openings[k].name
          && rows[k][1].style == rows[k][2].style == (if Exists(openings[k]) then Grey else Green)
      {
        var opening := openings[i];
        var newStr, nameCell, ecoCell;
        if Exists(opening) {
          newStr := "";
          nameCell := Cell(opening.name, Grey);
          ecoCell := Cell(opening.eco, Grey);
        } else {
          newStr := ":new:";
          nameCell := Cell(opening.name, Green);
          ecoCell := Cell(opening.eco, Green);
        }
        rows := rows + [[Cell(newStr, Plain), ecoCell, nameCell]];
        i := i + 1;
      }
      table := Table("New Openings", TableColumns, rows);
    }
  }
}
