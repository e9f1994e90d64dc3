/** The two interactive workflows and the item preview: how the display lines and their id map are
    built, what the preview text of an item looks like, and which selector replies choose an item
    or open an attachment. The database is modelled by the results of the queries the workflows
    run; the selector's replies are inputs and opening a file is a recorded effect. */
module Actions {
  import opened Wrappers
  import opened Seqs
  import opened Text
  import opened Utils
  import opened Db
  import opened FzfUi

  // ---------------------------------------------------------------------------------------------
  // The item preview

  /** A row of the creators query: last name and first name ("" for an empty or NULL name). */
  datatype CreatorRow = CreatorRow(lastName: string, firstName: string)

  predicate HasName(c: CreatorRow) {
    c.lastName != "" || c.firstName != ""
  }

  function FormatCreator(c: CreatorRow): string {
    if c.firstName != "" then c.lastName + ", " + c.firstName else c.lastName
  }

  /** The creators comprehension: one entry per row with a name, in row order. */
  function Creators(rows: seq<CreatorRow>): seq<string> {
    Map(Filter(rows, HasName), FormatCreator)
  }

  /** A creator is "last, first" when the first name is non-empty and the last name alone
      otherwise; a row with neither name is dropped. */
  lemma CreatorsOfOne(c: CreatorRow)
    ensures Creators([c]) ==
      if c.lastName == "" && c.firstName == "" then []
      else if c.firstName != "" then [c.lastName + ", " + c.firstName]
      else [c.lastName]
  {
    FilterSingleton(c, HasName);
  }

  /** Creators keep the order of their rows. */
  lemma CreatorsAppend(a: seq<CreatorRow>, b: seq<CreatorRow>)
    ensures Creators(a + b) == Creators(a) + Creators(b)
  {
    FilterAppend(a, b, HasName);
  }

  /** The `Authors:` value: the creators separated by "; ", or "-" when there are none. */
  function AuthorsText(creators: seq<string>): string {
    if creators == [] then "-" else Join("; ", creators)
  }

  /** The lines of `_preview_for_item_sqlite`; `titleRow` and `dateRow` are the rows the title
      and date queries return (`None` when there is none). */
  function PreviewLines(titleRow: Option<string>, dateRow: Option<string>, creatorRows: seq<CreatorRow>, attachments: seq<string>)
    : (ls: seq<string>)
    ensures |ls| == 5 + (if attachments == [] then 1 else |attachments|)
    ensures ls[0] == "Title: " + (if titleRow.Some? then titleRow.value else "(untitled)")
    ensures ls[1] == "Authors: " + AuthorsText(Creators(creatorRows))
    ensures ls[2] == "Date: " + (if dateRow.Some? then dateRow.value else "")
    ensures ls[3] == "" && ls[4] == "Attachments:"
    ensures attachments == [] ==> ls[5] == "  - (none)"
    ensures forall i | 0 <= i < |attachments| :: ls[5 + i] == "  - " + attachments[i]
  {
    var title := if titleRow.Some? then titleRow.value else "(untitled)";
    var date := if dateRow.Some? then dateRow.value else "";
    var head := ["Title: " + title, "Authors: " + AuthorsText(Creators(creatorRows)), "Date: " + date, "", "Attachments:"];
    head + (if attachments != [] then Map(attachments, (p: string) => "  - " + p) else ["  - (none)"])
  }

  /** `_preview_for_item_sqlite`: the preview lines joined by newlines. */
  function PreviewText(titleRow: Option<string>, dateRow: Option<string>, creatorRows: seq<CreatorRow>, attachments: seq<string>): string
  {
    Join("\n", PreviewLines(titleRow, dateRow, creatorRows, attachments))
  }

  /** When no field holds a newline, the preview text consists of exactly the preview lines: the
      layout is the same for every item. */
  lemma PreviewTextLines(titleRow: Option<string>, dateRow: Option<string>, creatorRows: seq<CreatorRow>, attachments: seq<string>)
    requires forall l | l in PreviewLines(titleRow, dateRow, creatorRows, attachments) :: '\n' !in l
    ensures Split(PreviewText(titleRow, dateRow, creatorRows, attachments), '\n')
      == PreviewLines(titleRow, dateRow, creatorRows, attachments)
  {
    SplitJoin(PreviewLines(titleRow, dateRow, creatorRows, attachments), '\n');
  }

  // ---------------------------------------------------------------------------------------------
  // Display lines

  const Esc: char := '\U{1B}'
  /** What stands between the label and the id: a space and the dim-grey colour code. */
  const IdOpen: string := [' ', Esc, '[', '9', '0', 'm', '[']
  /** What follows the id: the closing bracket and the colour reset. */
  const IdClose: string := [']', Esc, '[', '0', 'm']

  /** `f"{label} \x1b[90m[{id}]\x1b[0m"`. */
  function DisplayLine(caption: string, id: int): string {
    caption + IdOpen + IntToDecimal(id) + IdClose
  }

  /** A row of the item title queries. */
  datatype ItemRow = ItemRow(id: int, title: string)

  function ItemLines(items: seq<ItemRow>): seq<string> {
    Map(items, (it: ItemRow) => DisplayLine(it.title, it.id))
  }

  /** A display line determines the id it was built from, whatever the labels: so the line map
      cannot send a line to a wrong id even when two rows produce the same line. */
  lemma DisplayLineDeterminesId(text1: string, id1: int, text2: string, id2: int)
    requires DisplayLine(text1, id1) == DisplayLine(text2, id2)
    ensures id1 == id2
  {
    var d1, d2 := IntToDecimal(id1), IntToDecimal(id2);
    var x1, x2 := text1 + IdOpen + d1, text2 + IdOpen + d2;
    assert DisplayLine(text1, id1) == x1 + IdClose && DisplayLine(text2, id2) == x2 + IdClose;
    assert x1 == DisplayLine(text1, id1)[..|x1|];
    assert x1 == x2;
    if |d1| < |d2| {
      BracketBeforeShorter(x1, text1 + IdOpen, d1, d2);
    } else if |d2| < |d1| {
      BracketBeforeShorter(x1, text2 + IdOpen, d2, d1);
    }
    assert d1 == x1[|x1| - |d1|..] == d2;
    IntToDecimalInjective(id1, id2);
  }

  /** If `x` ends in `long` and also in `[` followed by a shorter `short`, that bracket lies
      inside `long`. */
  lemma BracketBeforeShorter(x: string, prefix: string, short: string, long: string)
    requires x == prefix + short && prefix != [] && prefix[|prefix| - 1] == '['
    requires |short| < |long| <= |x| && x[|x| - |long|..] == long
    ensures '[' in long
  {
    var k := |x| - |short| - 1;
    assert x[k] == '[';
    assert x[k] == long[k - (|x| - |long|)];
  }

  /** The preview's id extraction inverts the display line: for a label without a `[digits]`
      group of its own, parsing the line gives back the id. */
  lemma DisplayLineRoundTrip(title: string, id: nat)
    requires forall i, j :: !IsIdGroup(title, i, j)
    ensures ParseItemId(DisplayLine(title, id)) == Some(id)
  {
    var line := DisplayLine(title, id);
    var d := NatToDecimal(id);
    var n := |title|;
    var p, q := n + 6, n + 7 + |d|;
    assert line == title + IdOpen + d + IdClose;
    assert forall k | 0 <= k < n :: line[k] == title[k];
    assert line[n] == ' ' && line[n + 1] == Esc && line[n + 2] == '[';
    assert line[n + 3] == '9' && line[n + 4] == '0' && line[n + 5] == 'm' && line[p] == '[';
    assert forall k | 0 <= k < |d| :: line[p + 1 + k] == d[k];
    assert line[q] == ']';
    forall i, j | i < p ensures !IsIdGroup(line, i, j) {
      if i < n && j < n {
        assert IsIdGroup(line, i, j) == IsIdGroup(title, i, j);
      } else if i < n {
        assert !IsDigit(line[n]) && line[n] != ']';
      } else {
        assert line[n] != '[' && line[n + 1] != '[' && line[n + 3] != '[' && line[n + 4] != '[' && line[n + 5] != '[';
        assert line[n + 4] != ']' && line[n + 5] != ']' && !IsDigit(line[n + 5]);
      }
    }
    assert IsIdGroup(line, p, q);
    ParseAtFirstGroup(line, p, q);
    assert line[p + 1..q] == d;
    DecimalRoundTrip(id);
  }

  /** `lines` are the display lines of the first `|lines|` (caption, id) pairs, in order. */
  predicate LinesOf(lines: seq<string>, captions: seq<string>, ids: seq<int>) {
    && |lines| <= |captions| && |lines| <= |ids|
    && forall k | 0 <= k < |lines| :: lines[k] == DisplayLine(captions[k], ids[k])
  }

  /** `idByLine` has exactly `lines` as keys and sends each line to the id at its position. */
  predicate Indexes(lines: seq<string>, idByLine: map<string, int>, ids: seq<int>) {
    && |lines| <= |ids|
    && (forall l | l in idByLine :: l in lines)
    && (forall k | 0 <= k < |lines| :: lines[k] in idByLine && idByLine[lines[k]] == ids[k])
  }

  /** One step of an indexing loop: appending the next line and storing its id keeps both
      predicates. An earlier copy of the same line needs no care, since the line determines the
      id and so the later store writes the id the key already has. */
  lemma IndexStep(lines: seq<string>, idByLine: map<string, int>, captions: seq<string>, ids: seq<int>, line: string)
    requires LinesOf(lines, captions, ids) && Indexes(lines, idByLine, ids)
    requires |lines| < |captions| && |lines| < |ids|
    requires line == DisplayLine(captions[|lines|], ids[|lines|])
    ensures LinesOf(lines + [line], captions, ids)
    ensures Indexes(lines + [line], idByLine[line := ids[|lines|]], ids)
  {
    SameLineSameId(lines, captions, ids, line);
    StoreStep(lines, idByLine, ids, line);
    LinesStep(lines, captions, ids, line);
  }

  lemma LinesStep(lines: seq<string>, captions: seq<string>, ids: seq<int>, line: string)
    requires LinesOf(lines, captions, ids) && |lines| < |captions| && |lines| < |ids|
    requires line == DisplayLine(captions[|lines|], ids[|lines|])
    ensures LinesOf(lines + [line], captions, ids)
  {
    var ls := lines + [line];
    forall k | 0 <= k < |ls| ensures ls[k] == DisplayLine(captions[k], ids[k]) {
      if k < |lines| {
        assert ls[k] == lines[k];
      }
    }
  }

  lemma SameLineSameId(lines: seq<string>, captions: seq<string>, ids: seq<int>, line: string)
    requires LinesOf(lines, captions, ids) && |lines| < |captions| && |lines| < |ids|
    requires line == DisplayLine(captions[|lines|], ids[|lines|])
    ensures forall k | 0 <= k < |lines| && lines[k] == line :: ids[k] == ids[|lines|]
  {
    var n := |lines|;
    forall k | 0 <= k < n && lines[k] == line ensures ids[k] == ids[n] {
      DisplayLineDeterminesId(captions[k], ids[k], captions[n], ids[n]);
    }
  }

  lemma StoreStep(lines: seq<string>, idByLine: map<string, int>, ids: seq<int>, line: string)
    requires Indexes(lines, idByLine, ids) && |lines| < |ids|
    requires forall k | 0 <= k < |lines| && lines[k] == line :: ids[k] == ids[|lines|]
    ensures Indexes(lines + [line], idByLine[line := ids[|lines|]], ids)
  {
  }

  lemma IndexKeys(lines: seq<string>, idByLine: map<string, int>, ids: seq<int>)
    requires Indexes(lines, idByLine, ids)
    ensures idByLine.Keys == set l | l in lines
  {
  }

  function Titles(items: seq<ItemRow>): seq<string> {
    Map(items, (it: ItemRow) => it.title)
  }

  function ItemIds(items: seq<ItemRow>): seq<int> {
    Map(items, (it: ItemRow) => it.id)
  }

  /** As written, the preview reads the leftmost group, so a title that itself holds a bracketed
      number hides the item's id: the line of any item titled "[3] Notes" previews item 3. */
  lemma BracketedTitleShadowsId(id: int)
    ensures ParseItemId(DisplayLine("[3] Notes", id)) == Some(3)
  {
    var line := DisplayLine("[3] Notes", id);
    assert line[0] == '[' && line[1] == '3' && line[2] == ']';
    ParseAtFirstGroup(line, 0, 2);
    assert line[1..2] == "3";
  }

  /** With the rightmost group read instead, every display line of a non-negative id gives that
      id back, whatever its title. */
  lemma LastGroupRoundTrip(title: string, id: nat)
    ensures ParseLastItemId(DisplayLine(title, id)) == Some(id)
  {
    var line := DisplayLine(title, id);
    var d := NatToDecimal(id);
    var n := |title|;
    var p, q := n + 6, n + 7 + |d|;
    assert line == title + IdOpen + d + IdClose;
    assert |line| == q + 5;
    assert line[p] == '[';
    assert forall k | 0 <= k < |d| :: line[p + 1 + k] == d[k];
    assert line[q] == ']' && line[q + 1] == Esc && line[q + 2] == '[' && line[q + 3] == '0' && line[q + 4] == 'm';
    forall i, j | p < i ensures !IsIdGroup(line, i, j) {
      if i <= q {
        assert i == q || IsDigit(line[i]);
      } else {
        assert line[q + 4] != ']' && !IsDigit(line[q + 4]);
      }
    }
    assert IsIdGroup(line, p, q);
    ParseAtLastGroup(line, p, q);
    assert line[p + 1..q] == d;
    DecimalRoundTrip(id);
  }

  /** The loop that fills `lines` and `id_by_line`: one line per row, in order, and every line
      maps back to the id of the row it was built from. */
  method IndexItems(items: seq<ItemRow>) returns (lines: seq<string>, idByLine: map<string, int>)
    ensures lines == ItemLines(items)
    ensures idByLine.Keys == set l | l in lines
    ensures forall i | 0 <= i < |items| :: idByLine[lines[i]] == items[i].id
  {
    ghost var titles, ids := Titles(items), ItemIds(items);
    lines, idByLine := [], map[];
    for i := 0 to |items|
      invariant |lines| == i
      invariant LinesOf(lines, titles, ids)
      invariant Indexes(lines, idByLine, ids)
    {
      var line := DisplayLine(items[i].title, items[i].id);
      IndexStep(lines, idByLine, titles, ids, line);
      lines := lines + [line];
      idByLine := idByLine[line := items[i].id];
    }
    IndexKeys(lines, idByLine, ids);
  }

  // ---------------------------------------------------------------------------------------------
  // The workflows

  /** The database as the workflows see it: the results of the queries they run. */
  datatype Library = Library(
    databaseList: Query<DatabaseListRow>,        // PRAGMA database_list
    items: seq<ItemRow>,                         // fetch_items_fulltext
    collections: seq<Collection>,                // fetch_collections
    itemsIn: int -> seq<ItemRow>,                // fetch_item_titles_in_collection
    attachmentRows: int -> seq<Option<string>>)  // the stored paths of an item's attachments

  /** What `fetch_attachments_for_item` returns for an item. */
  function Attachments(lib: Library, itemId: int): seq<string> {
    Map(StoredPaths(lib.attachmentRows(itemId)), (p: string) => NormalizedPath(lib.databaseList, p))
  }

  const PreviewCommand: string := "zotero-tui preview --line {}"
  const OpenKey: string := "ctrl-o"
  const ItemKeys: seq<string> := ["enter", "ctrl-o"]

  /** The item half of both workflows: the items are offered as display lines; an empty
      selection returns `None` and opens nothing; otherwise the item on the first selected line
      is chosen, and only the ctrl-o key opens anything, and then only the item's first
      attachment. */
  method PickItem(lib: Library, items: seq<ItemRow>, reply: Reply)
    returns (lines: seq<string>, chosen: Option<int>, openedFile: Option<string>)
    requires reply.selection != [] ==> reply.selection[0] in ItemLines(items)
    ensures lines == ItemLines(items)
    ensures chosen.None? <==> reply.selection == []
    ensures forall i | 0 <= i < |items| && reply.selection != [] && lines[i] == reply.selection[0] ::
      chosen == Some(items[i].id)
    ensures openedFile.Some? <==> chosen.Some? && reply.key == Some(OpenKey) && Attachments(lib, chosen.value) != []
    ensures openedFile.Some? ==> openedFile.value == Attachments(lib, chosen.value)[0]
  {
    var idByLine;
    lines, idByLine := IndexItems(items);
    if reply.selection == [] {
      return lines, None, None;
    }
    var chosenLine := reply.selection[0];
    var itemId := idByLine[chosenLine];
    chosen, openedFile := Some(itemId), None;
    if reply.key == Some(OpenKey) {
      var atts := FetchAttachmentsForItem(lib.databaseList, lib.attachmentRows(itemId));
      assert atts == Attachments(lib, itemId);
      if atts != [] {
        openedFile := Some(atts[0]);
      }
    }
  }

  /** `workflow_whole_library`: every item is offered to a selector run with the preview command
      and the keys enter and ctrl-o; its output is split by `prompt` and the reply is handled by
      `PickItem`. */
  method WorkflowWholeLibrary(lib: Library, output: seq<string>)
    returns (options: string, lines: seq<string>, chosen: Option<int>, openedFile: Option<string>)
    requires SplitReply(ItemKeys, output).selection != [] ==>
      SplitReply(ItemKeys, output).selection[0] in ItemLines(lib.items)
    ensures options == FzfOptions(PreviewCommand, ItemKeys)
    ensures lines == ItemLines(lib.items)
    ensures chosen.None? <==> SplitReply(ItemKeys, output).selection == []
    ensures forall i | 0 <= i < |lib.items| && chosen.Some? && lines[i] == SplitReply(ItemKeys, output).selection[0] ::
      chosen == Some(lib.items[i].id)
    ensures openedFile.Some? <==>
      chosen.Some? && output[0] == OpenKey && Attachments(lib, chosen.value) != []
    ensures openedFile.Some? ==> openedFile.value == Attachments(lib, chosen.value)[0]
  {
    options := BuildFzfOptions(PreviewCommand, ItemKeys);
    var reply := SplitReply(ItemKeys, output);
    assert reply.key == Some(OpenKey) <==> output != [] && output[0] == OpenKey;
    lines, chosen, openedFile := PickItem(lib, lib.items, reply);
  }

  ghost predicate WalksTerminate(colls: seq<Collection>) {
    forall c | c in colls :: ReachesRoot(c, ById(colls))
  }

  /** The collection lines: each collection's full path and id. */
  ghost function CollectionLines(colls: seq<Collection>): seq<string>
    requires WalksTerminate(colls)
  {
    seq(|colls|, i requires 0 <= i < |colls| => DisplayLine(CollectionPath(colls[i], colls), colls[i].id))
  }

  /** The path of each collection (a ghost view of what the loop computes). */
  ghost function Paths(colls: seq<Collection>): seq<string>
    requires WalksTerminate(colls)
  {
    seq(|colls|, i requires 0 <= i < |colls| => CollectionPath(colls[i], colls))
  }

  function CollectionIds(colls: seq<Collection>): seq<int> {
    Map(colls, (c: Collection) => c.id)
  }

  /** The loop of `workflow_by_collection` that builds each collection's path and line: one line
      per collection, in order, and every line maps back to its collection's id. */
  method IndexCollections(colls: seq<Collection>) returns (lines: seq<string>, idByLine: map<string, int>)
    requires WalksTerminate(colls)
    ensures lines == CollectionLines(colls)
    ensures idByLine.Keys == set l | l in lines
    ensures forall i | 0 <= i < |colls| :: idByLine[lines[i]] == colls[i].id
  {
    ghost var paths, ids := Paths(colls), CollectionIds(colls);
    lines, idByLine := [], map[];
    for i := 0 to |colls|
      invariant |lines| == i
      invariant LinesOf(lines, paths, ids)
      invariant Indexes(lines, idByLine, ids)
    {
      assert colls[i] in colls;
      var path := BuildCollectionPath(colls[i], colls);
      var line := DisplayLine(path, colls[i].id);
      IndexStep(lines, idByLine, paths, ids, line);
      lines := lines + [line];
      idByLine := idByLine[line := colls[i].id];
    }
    IndexKeys(lines, idByLine, ids);
  }

  /** `workflow_by_collection`: the collections are offered by path to a selector run without
      preview or keys; an empty pick returns `None` before any item query; otherwise the items of
      the picked collection are offered as in the whole-library workflow, and the item output is
      handled the same way. `queried` is the collection whose items were queried. */
  method WorkflowByCollection(lib: Library, collectionOutput: seq<string>, itemOutput: seq<string>)
    returns (collectionOptions: string, collectionLines: seq<string>, queried: Option<int>,
             itemOptions: string, itemLines: seq<string>, chosen: Option<int>, openedFile: Option<string>)
    requires WalksTerminate(lib.collections)
    requires collectionOutput != [] ==> collectionOutput[0] in CollectionLines(lib.collections)
    requires forall i | 0 <= i < |lib.collections| ::
      collectionOutput != [] && CollectionLines(lib.collections)[i] == collectionOutput[0] &&
      SplitReply(ItemKeys, itemOutput).selection != [] ==>
        SplitReply(ItemKeys, itemOutput).selection[0] in ItemLines(lib.itemsIn(lib.collections[i].id))
    ensures collectionOptions == FzfOptions("", [])
    ensures collectionLines == CollectionLines(lib.collections)
    ensures queried.None? <==> collectionOutput == []
    ensures forall i | 0 <= i < |lib.collections| && queried.Some? && collectionLines[i] == collectionOutput[0] ::
      queried == Some(lib.collections[i].id)
    ensures queried.Some? ==> itemOptions == FzfOptions(PreviewCommand, ItemKeys)
    ensures itemLines == if queried.Some? then ItemLines(lib.itemsIn(queried.value)) else []
    ensures chosen.None? <==> queried.None? || SplitReply(ItemKeys, itemOutput).selection == []
    ensures forall i | 0 <= i < |itemLines| && chosen.Some? && itemLines[i] == SplitReply(ItemKeys, itemOutput).selection[0] ::
      chosen == Some(lib.itemsIn(queried.value)[i].id)
    ensures openedFile.Some? <==>
      chosen.Some? && itemOutput[0] == OpenKey && Attachments(lib, chosen.value) != []
    ensures openedFile.Some? ==> openedFile.value == Attachments(lib, chosen.value)[0]
  {
    var idByLine;
    collectionLines, idByLine := IndexCollections(lib.collections);
    collectionOptions := BuildFzfOptions("", []);
    var collectionReply := SplitReply([], collectionOutput);

    if collectionReply.selection == [] {
      return collectionOptions, collectionLines, None, "", [], None, None;
    }
    var chosenCollection := idByLine[collectionReply.selection[0]];
    queried := Some(chosenCollection);

    itemOptions := BuildFzfOptions(PreviewCommand, ItemKeys);
    var itemReply := SplitReply(ItemKeys, itemOutput);
    assert itemReply.key == Some(OpenKey) <==> itemOutput != [] && itemOutput[0] == OpenKey;
    itemLines, chosen, openedFile := PickItem(lib, lib.itemsIn(chosenCollection), itemReply);
  }
}
