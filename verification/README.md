# zot-tui in Dafny

zot-tui is a terminal browser for a local Zotero library. It reads the Zotero SQLite database
directly and shows items, or collections and then their items, in the fzf fuzzy selector. Each
selector line is a title or a collection path followed by the item or collection id in dim grey
brackets. A preview pane renders an item's title, authors, date and attachments. Pressing ctrl-o
opens the item's first attachment.

This project models the core of that program and proves properties about the model:

- `db.dfy` (module `Db`):
  - a collection's full path, built by walking its parent links;
  - the main database file from `PRAGMA database_list`;
  - the rewrite of `attachments:` paths under the data directory's `storage` folder;
  - the attachment list of an item.
- `utils.dfy` (module `Utils`): the extraction of an item id from a selector line, that is, the
  first `[digits]` group. It also holds a corrected parser that reads the last group (see
  Findings).
- `fzf_ui.dfy` (module `FzfUi`):
  - the fzf option string, including POSIX shell quoting of the preview command;
  - `prompt`: it hides `FZF_DEFAULT_OPTS` during the selector call and restores it afterwards,
    then splits the selector's output into the pressed key and the selected lines.
- `actions.dfy` (module `Actions`):
  - the item preview text;
  - the display lines and the line-to-id maps;
  - the two workflows: whole library, and collection then item. For each, the model fixes which
    id a reply chooses and which file ctrl-o opens.
- `wrappers.dfy`, `seqs.dfy` and `text.dfy` hold shared helpers:
  - an option type;
  - filter, map and reverse on sequences;
  - joining and splitting strings;
  - decimal digits.

The model has no database connection. It works on a snapshot of what the program's queries
return, the `Library` datatype. Only the `PRAGMA database_list` query may raise in the model:
that is the `Raised` case of `Query`. The lines the selector prints are inputs, and opening a
file is an output (`openedFile`). The process environment is the `FzfUi.Environment` class,
whose `vars` map `Prompt` updates in place. The loops of the source are methods with loop
invariants:
- the collection walk, the attachments loop, `_normalize_attachment_path`'s scan and the two
  indexing loops are proved equal to the specification functions `CollectionPath`,
  `StoredPaths`, `NormalizedPath`, `ItemLines` and `CollectionLines`;
- the scan of `get_db_path_for_connection` is proved against a direct statement of the first
  matching row.

## Model

| member | source | states |
|---|---|---|
| Db.ById | src/zotero_tui/db.py:47 | every collection's id is a key, and each key maps to a collection of the list that has that id |
| Db.ByIdLastWins | src/zotero_tui/db.py:47 | when ids repeat, the dictionary keeps the last collection with the id |
| Db.BuildCollectionPath | src/zotero_tui/db.py:46-53 | the walk up the parent links returns exactly `CollectionPath`: "/" followed by the names from the outermost ancestor down to the collection, separated by "/" |
| Db.RootPath | src/zotero_tui/db.py:52 | a collection without a parent, or with parent id 0 (falsy), has path "/" + its name |
| Db.DanglingParentPath | src/zotero_tui/db.py:52 | a parent id that names no collection ends the walk: the path is "/" + the name |
| Db.ChildPath | src/zotero_tui/db.py:50-53 | a child's path is its parent's path, then "/" and its own name |
| Db.CycleNeverReachesRoot | src/zotero_tui/db.py:50-52 | a collection on a parent cycle never ends its walk, so `build_collection_path` does not terminate on it |
| Db.ChainExample | tests/test_db_paths.py:4-12 | A, then B under A, then C under B have paths "/A", "/A/B" and "/A/B/C" |
| Db.GetDbPathForConnection | src/zotero_tui/db.py:20-30 | the result is the file of the first row named "main" whose file is non-empty; it is `None` exactly when there is no such row or the query raises |
| Db.FirstMainFile | src/zotero_tui/db.py:124-128 | the search stops at the first row named "main", and its file may be empty; the result is absent exactly when no row is named "main" |
| Db.NormalizedPath | src/zotero_tui/db.py:117-138 | a path without the `attachments:` prefix is kept, and so is any path when the query raises or the main file is missing or empty |
| Db.NormalizeAttachmentPath | src/zotero_tui/db.py:117-138 | the loop and the branches compute `NormalizedPath` |
| Db.AttachmentRest | src/zotero_tui/db.py:133 | the relative part of `attachments:rest` is `rest`, even when `rest` contains colons |
| Db.ParentOfFile | src/zotero_tui/db.py:131 | the parent of `dir/name` is `dir` |
| Db.RewriteUnderStorage | src/zotero_tui/db.py:129-135 | with main file `dir/name`, `attachments:rest` becomes `dir/storage/rest` |
| Db.StoredPathsCount | src/zotero_tui/db.py:110-112 | the kept paths are non-empty, and there is one for each row whose path is set and non-empty |
| Db.StoredPathsAppend | src/zotero_tui/db.py:110-113 | the filter keeps the rows' order |
| Db.StoredPathsOfOne | src/zotero_tui/db.py:111-112 | a NULL or empty path is skipped; any other path is kept |
| Db.FetchAttachmentsForItem | src/zotero_tui/db.py:92-114 | the result has one entry per kept path, in order, each one normalised |
| Utils.ParseItemId | src/zotero_tui/utils.py:7-13 | the result is absent exactly when no `[digits]` group occurs; otherwise it is the decimal value of the digits of the leftmost group |
| Utils.ParseAtFirstGroup | src/zotero_tui/utils.py:12-13 | once a group opens at `p` and none opens earlier, the parse reads exactly that group |
| Utils.SkipsColourCode | src/zotero_tui/utils.py:7 | the `[90m` of a colour code is not a group and is skipped; leading zeros are ignored (`[007]` gives 7) |
| Utils.ParseTitleWithId | tests/test_utils.py:5 | "Paper Title [42]" gives 42 |
| Utils.ParseLineWithoutId | tests/test_utils.py:6 | "No id here" gives no id |
| Utils.ParseLastItemId | src/zotero_tui/utils.py:10-13 | the corrected parse: it is absent exactly when no group occurs, and otherwise reads the rightmost group |
| Text.DecimalRoundTrip | src/zotero_tui/utils.py:13 | `int` of the digits that `str` writes for a non-negative id gives that id back |
| Text.IntToDecimalInjective | src/zotero_tui/actions.py:81 | different ids are written as different digit strings |
| FzfUi.QuotedIsOneWord | src/zotero_tui/fzf_ui.py:14 | a POSIX shell reads the quoted preview command back as one word equal to the command, for every command |
| FzfUi.FzfOptions | src/zotero_tui/fzf_ui.py:10-18 | the options start with the fixed base options, and end with `--expect=` and the comma-joined keys when keys are given |
| FzfUi.JoinTokens | src/zotero_tui/fzf_ui.py:11-18 | joining the base, preview and expect tokens with spaces gives `FzfOptions` |
| FzfUi.BuildFzfOptions | src/zotero_tui/fzf_ui.py:10-18 | the token list the method builds, joined with spaces, is `FzfOptions` |
| FzfUi.SplitReply | src/zotero_tui/fzf_ui.py:38-46 | with no expect keys, the whole output is the selection; with keys, an empty output is no key and no selection; a key is reported exactly when the first line is an expect key; a non-empty key is dropped from the selection |
| FzfUi.Prompt | src/zotero_tui/fzf_ui.py:21-46 | the selector runs without `FZF_DEFAULT_OPTS`; afterwards the environment is exactly as before, whether or not the call raised; a raised call gives no reply, and otherwise the reply is `SplitReply` of the output |
| Actions.CreatorsOfOne | src/zotero_tui/actions.py:51-54 | a creator is "last, first" when the first name is non-empty, the last name alone otherwise, and dropped when both are empty |
| Actions.CreatorsAppend | src/zotero_tui/actions.py:51-54 | the creators keep the order of their rows |
| Actions.PreviewLines | src/zotero_tui/actions.py:24-71 | the Title line (with "(untitled)" when there is no title row), the Authors line (with "-" when there are no creators), the Date line, a blank line, "Attachments:", and then one "  - " line per attachment or "  - (none)" |
| Actions.PreviewTextLines | src/zotero_tui/actions.py:61-72 | when no field holds a newline, splitting the preview text at newlines gives back exactly the preview lines |
| Actions.DisplayLineDeterminesId | src/zotero_tui/actions.py:81 | two equal display lines carry equal ids, whatever their labels, so the line-to-id map never conflicts |
| Actions.DisplayLineRoundTrip | src/zotero_tui/actions.py:81 | the id parser recovers the id of a display line whose title holds no `[digits]` group |
| Actions.BracketedTitleShadowsId | src/zotero_tui/utils.py:12 | the line of any item titled "[3] Notes" parses to 3, whatever the item's id |
| Actions.LastGroupRoundTrip | src/zotero_tui/actions.py:81 | the rightmost-group parse recovers the id of every display line of a non-negative id, whatever the title |
| Actions.IndexItems | src/zotero_tui/actions.py:78-83 | the lines are the display lines of the items, in order; the map's keys are exactly those lines; each line maps to the id of its row |
| Actions.IndexCollections | src/zotero_tui/actions.py:106-112 | the lines are each collection's full path with its id, in order; the map's keys are exactly those lines; each line maps to its collection's id |
| Actions.PickItem | src/zotero_tui/actions.py:90-100 | an empty selection chooses nothing and opens nothing; otherwise the item on the first selected line is chosen; a file is opened exactly when the key is ctrl-o and the item has an attachment, and that file is the first attachment |
| Actions.WorkflowWholeLibrary | src/zotero_tui/actions.py:75-100 | the selector gets the preview command and the keys enter and ctrl-o; every item of the library is offered; the output, split by `SplitReply`, chooses and opens as `PickItem` states, so a file is opened only when the output's first line is ctrl-o |
| Actions.WorkflowByCollection | src/zotero_tui/actions.py:103-139 | the collection selector gets the base options only, and its whole output is the selection; an empty collection pick returns before any item query; otherwise the picked collection's items are offered with the preview command and the keys enter and ctrl-o; an item is chosen exactly when both picks are non-empty; ctrl-o opens that item's first attachment |

## Left out

- The SQL queries are not modelled. The database is a snapshot of their results (`Library`, `Query`), and fieldIDs 110 and 14 appear only as the title and date rows.
- The pyfzf process and the terminal are left out. The selector's output is an input. Whether the call raised is an input of `FzfUi.Prompt` only. The `entries` that `prompt` passes on are not modelled, because the selector's output is given, not computed.
- Opening a file with `open` through `os.system` (src/zotero_tui/actions.py:142-144) is left out. The model records the path that would be opened as `openedFile`.
- `pathlib` is reduced to POSIX string operations, and Windows paths are not modelled. `Path` drops "." segments, doubled slashes and a trailing "/", and `ParentDir` and `JoinPath` do not. For example, `Path("a/b/").parent` is "a", but `ParentDir("a/b/")` is "a/b". The model agrees with pathlib on normalised paths.
- Python's `\d` also matches non-ASCII decimal digits. The model accepts ASCII digits only.
- A NULL title, date or creator name is printed by the source as "None". The model treats NULL names as empty (falsy), and a title or date row holds a string.
- `_normalize_attachment_path` re-runs `PRAGMA database_list` for each attachment. The model assumes every run returns the same snapshot.
- A stored attachment path is an `Option<string>`: SQL NULL is `None` and an empty path is `Some("")`, and `IsStored` skips both. The file name of a `PRAGMA database_list` row is a plain string, with SQL NULL modelled as "", since both are falsy.
- `Db.BuildCollectionPath` requires that the collection's parent walk ends (`ReachesRoot`). On a parent cycle the source loops forever; `Db.CycleNeverReachesRoot` shows that such a collection cannot meet the requirement. The workflow requires this of every collection (`WalksTerminate`).
- `Actions.PickItem`, `Actions.WorkflowWholeLibrary` and `Actions.WorkflowByCollection` require the selected line to be one of the offered lines. This is an assumption about the selector that the code does not show: the selector must print back an offered line unchanged, colour codes included. If it strips the codes under `--ansi`, every lookup in `id_by_line` raises `KeyError` (src/zotero_tui/actions.py:94, 117, 134), and the model does not cover that case.
- Only the two `PRAGMA database_list` queries may raise in the model, and only `FzfUi.Prompt` models a raising selector call. Every other query (`fetch_items_fulltext`, `fetch_collections`, `fetch_item_titles_in_collection`, the attachments and preview queries) and the selector calls inside the workflows are assumed to return. Their exceptions propagate in the source and are not modelled.
- src/zotero_tui/cli.py, src/zotero_tui/config.py and zot-tui.py are not part of this model. They cover argument parsing, locating the database, and the `preview` and `search` commands. The `search` command calls `workflow_search_metadata`, which the actions module does not define.

## Findings

| source | as written | input that shows it | evidently intended | confidence | as-written member | corrected member |
|---|---|---|---|---|---|---|
| src/zotero_tui/utils.py:7-13 (also src/zotero_tui/cli.py:64-67) | the id is read from the leftmost `[digits]` group of the line | an item with id 42 titled "[3] Notes" has the display line `[3] Notes \x1b[90m[42]\x1b[0m`, which previews item 3 | read the id that the display line appends after the title, which is the rightmost group | high (proved in the model, not executed) | Actions.BracketedTitleShadowsId | Actions.LastGroupRoundTrip |
