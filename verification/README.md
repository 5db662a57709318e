# debiai client core in Dafny

This project models the data-handling core of the DebiAI Python client.
That client uploads samples and model results to a DebiAI backend and
reads them back as tables. The parts modelled are:

- **Array encoder.** `check_np_array` builds the label → column map.
  `np_to_dict` builds the nested "block tree" from a 2-D string array
  (module `NpToDict`; the index map is in `IndexMap`).
- **DataFrame encoder.** `df_to_dict_tree` builds the same tree from a
  frame, grouping rows into insertion-ordered maps first (module
  `DfToDictTree`).
- **Tree decoder.** `_tree_to_array` and `_get_block_data` flatten a tree
  back into rows (module `TreeToArray`).
- **Project.** `Debiai_project` (module `Project`, class `Project.Project`)
  covers:
  - its cached attributes;
  - the block-structure and expected-results checks (module `ProjectChecks`);
  - the 5000-row chunked sample uploads (module `Chunking`);
  - name lookups and the header row of `get_numpy`.
- **Model.** `Debiai_model` (module `Model`) covers:
  - the result-order check and the recursive width check of a results dict;
  - the DataFrame → results-dict conversion;
  - the chunked results upload.
- **Tag.** `Debiai_tag` (module `Tag`) covers the cached tag loading, the
  tag-value histogram and the tagged-sample table.

The backend is a `Backend.Server` object:

- It holds the project document, the stored sample tree, the selections and
  the tags.
- It keeps a log of the write requests it accepted.
- A map from call number to failure says which write calls fail.
- Reads return the server's state.

Python's in-place mutation of nested lists and dicts is modelled on values:

- The row loops are methods with loop invariants.
- The per-row descent into the tree is a recursive function.
- Each method is proved equal to a specification function, and the
  structural facts are proved about that function.

Cells of the numpy array are strings, and frame cells are text or
integers; `str()` of a frame cell is `Values.ToStr`. What these choices
leave out is listed under "Left out".

The array encoder's sibling lookup scans every sibling, not just the last
one appended. The model follows that code (a full scan that keeps the last
match).

## Model

| member | source | states |
|---|---|---|
| Values.ToStr | debiai/debiai_services/df_to_dict_tree.py:55 | The name of a block made from a text cell is the cell itself. An integer cell renders as a non-empty decimal string. |
| Values.StrConflatesKinds | debiai/debiai_services/df_to_dict_tree.py:34-55 | For every non-negative integer n, the text cell holding n's digits and the integer cell n are different dict keys but get the same block name (text "7" and integer 7, for example). |
| Values.CellValue | debiai/debiai_model.py:164-167 | A cell becomes a JSON value of the same kind (text ↔ string). |
| Schema.ToLevel | debiai/debiai_project.py:166-215 | A block dict read as a level keeps its name and exactly the groups the dict declares. |
| Schema.HeaderWidth | debiai/debiai_project.py:556-562 | The header row has one label per block name plus one per declared column. |
| Backend.Server.constructor | debiai/utils.py:127-134 | A fresh server holds the given project document (None for a 404) and failure plan, and an empty log. |
| Backend.Server.Submit | debiai/utils.py:295-334 | A write call fails exactly when its call number is in the failure plan. An accepted call is appended to the log. Nothing else on the server changes. |
| IndexMap.MissingAt | debiai/debiai_services/np_to_dict.py:51-68 | The first required label absent from the header, in traversal order: every earlier label is present, this one is not. |
| IndexMap.Positions | debiai/debiai_services/np_to_dict.py:57-58 | The map has exactly the required names as keys. Each maps to the first header position holding that name. |
| IndexMap.BuildIndexMap | debiai/debiai_services/np_to_dict.py:48-70 | It fails iff a required label is missing, and then reports the first missing one. Otherwise it returns the first-position map of every block and declared column name. |
| IndexMap.FirstMissingIs | debiai/debiai_services/np_to_dict.py:52-65 | The label the loop stops at (block i, column j, with all earlier labels present) is the first missing one overall. |
| IndexMap.MessageNamesLabel | debiai/debiai_services/df_to_dict_tree.py:13-24 | The error message contains the missing label's name. |
| IndexMap.MessageSaysMissing | debiai/debiai_services/df_to_dict_tree.py:13-24 | The error message contains the word "missing". |
| IndexMap.PositionsReadable | debiai/debiai_services/np_to_dict.py:57-68 | On success every block name and declared column of every level can be read from a row as wide as the header. |
| NpToDict.GroupValues | debiai/debiai_services/np_to_dict.py:82-89 | One value per declared column, in declaration order: text columns verbatim, the others through float(). |
| NpToDict.CreateBlock | debiai/debiai_services/np_to_dict.py:73-90 | A new block is named by its key cell and has no children. Each declared group holds exactly its columns' stored values. |
| NpToDict.LastNamed | debiai/debiai_services/np_to_dict.py:13-17 | The sibling scan finds the last sibling with the key, or reports that none has it. |
| NpToDict.ScanNamed | debiai/debiai_services/np_to_dict.py:31-36 | The loop over siblings returns what `LastNamed` specifies. |
| NpToDict.AddSample | debiai/debiai_services/np_to_dict.py:10-43 | Adding one row gives the tree that `InsertRow` specifies. |
| NpToDict.EncodeSnoc | debiai/debiai_services/np_to_dict.py:9-43 | Encoding one more row is inserting that row into the tree of the earlier rows. |
| NpToDict.NpToDict | debiai/debiai_services/np_to_dict.py:6-45 | The tree is well formed: distinct sibling names below the root, and distinct roots when there is more than one level. Every row's key path exists in it. With one level there is one root per row. |
| NpToDict.InsertRowWf | debiai/debiai_services/np_to_dict.py:12-43 | Inserting a row keeps the tree well formed and adds the row's key path. |
| NpToDict.InsertRowKeeps | debiai/debiai_services/np_to_dict.py:12-43 | Inserting a row never removes an existing key path. |
| NpToDict.AttachShaped | debiai/debiai_services/np_to_dict.py:27-43 | Descending a row below a node keeps the node's name and values. It keeps its subtree shaped with distinct siblings, and adds the rest of the row's key path. |
| NpToDict.AttachIdle | debiai/debiai_services/np_to_dict.py:31-36 | A row whose remaining key path already exists changes nothing. |
| NpToDict.EncodeWf | debiai/debiai_services/np_to_dict.py:9-43 | For all rows, the encoded tree is well formed and holds every row's key path. |
| NpToDict.DuplicateRowIgnored | debiai/debiai_services/np_to_dict.py:27-43 | With more than one level, a row whose full key path exists leaves the tree unchanged, so the later row's values are discarded. |
| NpToDict.EncodeSingleLevel | debiai/debiai_services/np_to_dict.py:12-24 | With one level every row becomes a new root (`CreateBlock` of that row), duplicates included. |
| DfToDictTree.GroupCells | debiai/debiai_services/df_to_dict_tree.py:59-61 | One cell per declared column, copied verbatim, in declaration order. |
| DfToDictTree.CreateBlock | debiai/debiai_services/df_to_dict_tree.py:54-62 | The block is named `str()` of its key cell. Its group values are the declared columns' cells, unconverted. |
| DfToDictTree.Find | debiai/debiai_services/df_to_dict_tree.py:34 | Finds the entry with the key, or reports that none has it. |
| DfToDictTree.GroupSnoc | debiai/debiai_services/df_to_dict_tree.py:30-46 | Grouping one more row is inserting its key path into the grouping of the earlier rows. |
| DfToDictTree.DfToDictTree | debiai/debiai_services/df_to_dict_tree.py:6-51 | It fails iff a required label is missing, naming the first one. Otherwise it returns the encoding of the frame. An empty frame gives an empty list. |
| DfToDictTree.InsertWf | debiai/debiai_services/df_to_dict_tree.py:32-46 | Inserting a row keeps keys distinct under every parent, root included, and adds the row's key path. |
| DfToDictTree.InsertKeeps | debiai/debiai_services/df_to_dict_tree.py:32-46 | Inserting a row never removes a key path. |
| DfToDictTree.InsertSound | debiai/debiai_services/df_to_dict_tree.py:32-46 | Every key path after an insertion was there before or is a prefix of the inserted row's path. |
| DfToDictTree.GroupWf | debiai/debiai_services/df_to_dict_tree.py:29-46 | The grouping has distinct keys under every parent and holds every row's key path. |
| DfToDictTree.GroupSound | debiai/debiai_services/df_to_dict_tree.py:29-46 | Every key path in the grouping is a prefix of some row's key path. |
| DfToDictTree.GroupPaths | debiai/debiai_services/df_to_dict_tree.py:29-46 | A full-depth path is in the grouping iff some row has exactly that key path. |
| DfToDictTree.InsertExtends | debiai/debiai_services/df_to_dict_tree.py:34-46 | An insertion keeps every existing entry's position, key and block values, and only appends children. |
| DfToDictTree.FirstRowWins | debiai/debiai_services/df_to_dict_tree.py:34-46 | The grouping of any prefix of the rows is extended, never changed, by the later rows. A node's values are those of the first row that created it. |
| DfToDictTree.ToNode | debiai/debiai_services/df_to_dict_tree.py:65-79 | The converted node keeps the block's name and values. A sample-level node has no children, and above it there is one child per map entry. |
| DfToDictTree.ToNodes | debiai/debiai_services/df_to_dict_tree.py:71-76 | The children list has one node per map entry, in insertion order. |
| DfToDictTree.ToNodesShaped | debiai/debiai_services/df_to_dict_tree.py:65-79 | The converted forest is shaped by the block structure. Each node is named `str()` of its key. |
| DfToDictTree.KeyPathsIff | debiai/debiai_services/df_to_dict_tree.py:65-79 | The listed leaf paths are exactly the full-depth key paths of the grouping. |
| DfToDictTree.KeyPathsNoDup | debiai/debiai_services/df_to_dict_tree.py:65-79 | No leaf path is listed twice. |
| DfToDictTree.LeavesAreKeyPaths | debiai/debiai_services/df_to_dict_tree.py:65-79 | The number of leaves equals the number of listed leaf paths. |
| DfToDictTree.LeavesAreDistinctPaths | debiai/debiai_services/df_to_dict_tree.py:29-51 | The encoding is shaped, and its number of leaves equals the number of distinct full key paths in the frame. |
| TreeToArray.Line | debiai/debiai_utils.py:76-83 | A node's line is its name followed by one value per declared column of its level. Only groups with declared columns are read, so a group declared with no columns may be absent from the node. |
| TreeToArray.EmptyGroupUnread | debiai/debiai_utils.py:76-83 | A childless node that lacks a group its level declares with no columns can be decoded, and its row is its name alone. |
| TreeToArray.PrefixAll | debiai/debiai_utils.py:97-101 | Each child row is prefixed by the node's line, keeping the rows' number and order. |
| TreeToArray.PrefixStep | debiai/debiai_utils.py:39-48 | The rows of the first k+1 top-level nodes are those of the first k followed by the next node's rows. |
| TreeToArray.Patches | debiai/debiai_utils.py:35-50 | The 700-node patches, joined, are exactly the rows of the whole forest in order. It accepts every tree whose nodes carry values for the declared columns, and a group declared with no columns need not be present. |
| TreeToArray.StackPatches | debiai/debiai_utils.py:51-53 | Stacking the patches is their concatenation. |
| TreeToArray.TreeToArray | debiai/debiai_utils.py:12-55 | The result is the concatenation, in order, of each top-level node's rows. An empty tree gives no rows. A node needs values only for the declared columns, as `_get_block_data` reads nothing else. |
| TreeToArray.ForestDataSnoc | debiai/debiai_utils.py:87-94 | The rows of a forest with one more node are the earlier rows followed by that node's rows. |
| TreeToArray.RowCount | debiai/debiai_utils.py:86-104 | A node yields as many rows as it has leaves: one when childless, and otherwise the sum over its children. |
| TreeToArray.ForestRowCount | debiai/debiai_utils.py:35-55 | A forest yields as many rows as it has leaves. |
| TreeToArray.RowsStartWithLine | debiai/debiai_utils.py:97-104 | A childless node yields exactly its line. Every row of any node starts with that node's line. |
| TreeToArray.RowWidth | debiai/debiai_utils.py:77-101 | Every row of a full-depth node has the width of the block structure from its level down. |
| TreeToArray.ForestRowWidth | debiai/debiai_utils.py:77-101 | The same width holds for every row of a forest of full-depth nodes. |
| TreeToArray.RowsMatchHeader | debiai/debiai_utils.py:77-101 | Every row of a full-depth tree is as wide as the header built at debiai_project.py:556-562. |
| Chunking.ChunksCover | debiai/debiai_project.py:336-345 | The chunks concatenate to the input, and there are ceil(N/size) of them. Each is non-empty and at most size long, and all but the last are full. |
| Chunking.ProgressValues | debiai/debiai_project.py:346 | The progress after chunk k is min((k+1)·size, N). It never decreases, and the last value is N. |
| Chunking.ChunkAt | debiai/debiai_project.py:336-339 | Chunk k is the slice starting at k·size. Another chunk follows iff the next start is still inside the input. |
| Chunking.CoveredAfter | debiai/debiai_project.py:336-345 | The first k chunks cover exactly the first min(k·size, N) rows. |
| Chunking.SlicesChunks | debiai/debiai_project.py:377-385 | Slicing from an offset gives the chunks of the remaining rows. |
| Chunking.EndsProgress | debiai/debiai_project.py:384-385 | The end offsets of the slices are the progress values. |
| Chunking.ChunkStep | debiai/debiai_model.py:101-107 | One loop step hands over the next chunk, the slice at the current offset, and records its end offset. |
| Chunking.ChunkExit | debiai/debiai_model.py:101-109 | When the loop stops, the chunks handed over are a prefix of all the chunks (all of them at the end), and so are the recorded progress values. |
| ProjectChecks.ColumnsErrorNone | debiai/debiai_project.py:181-215 | A group's columns raise nothing iff every column is a dict with a name, a known type and a string group if it has one. |
| ProjectChecks.GroupsErrorNone | debiai/debiai_project.py:179-215 | A block's groups raise nothing iff each declared group is a list of valid columns, or an empty string or dict, which the loop iterates without reading a column. |
| ProjectChecks.BlockErrorNone | debiai/debiai_project.py:166-215 | A block raises nothing iff it is a valid block. |
| ProjectChecks.LevelsErrorNone | debiai/debiai_project.py:166-215 | The loop over blocks raises nothing iff every block is valid. |
| ProjectChecks.StructureErrorIff | debiai/debiai_project.py:161-215 | The structure check passes iff the structure is non-empty and every block is valid. |
| ProjectChecks.StructureErrorFirst | debiai/debiai_project.py:166-215 | The error reported is the first invalid block's error, with every earlier block valid. |
| ProjectChecks.UnknownKeyIgnored | debiai/debiai_project.py:170-177 | A block key other than `name` and the four groups never changes the outcome of the check. |
| ProjectChecks.ListOfDicts | debiai/debiai_project.py:219 | The stored structure is the argument, entry for entry. |
| ProjectChecks.ItemsErrorNone | debiai/debiai_project.py:274-299 | The expected-results loop raises nothing iff no entry raises. |
| ProjectChecks.ExpectedErrorIff | debiai/debiai_project.py:266-295 | The expected results raise nothing iff they form a non-empty list of dicts, each with a name and a type, with no repeated name and with string groups. |
| ProjectChecks.CanonicalKeys | debiai/debiai_project.py:291-297 | A stored entry has exactly `name`, `type` and, when given, `group`, copied from the input. `default` and every other key are dropped. |
| ProjectChecks.StoredExpectedNames | debiai/debiai_project.py:291-302 | The stored entries keep the input's length, order and names, and the names are pairwise distinct. |
| Project.Levels | debiai/debiai_project.py:557-562 | A readable block structure has one level per stored block. |
| Project.NpRequests | debiai/debiai_project.py:336-345 | One tree upload per chunk. |
| Project.DfRequests | debiai/debiai_project.py:377-385 | One tree upload per chunk. |
| Project.DeleteAsWrittenSendsName | debiai/debiai_project.py:451-463 | For every listed model whose id differs from its name, the delete request sent as written carries the listed name, not the model's id. A handle from `get_model` passed back in is looked up by the listed id, so with that model alone listed it is reported as not existing. |
| Project.HandleRoundTrip | debiai/debiai_project.py:451-463 | With the intended handle, the handle `get_model` returns for a name is looked up under that name again and finds the same model. The delete request then carries the model's own id. |
| Project.HandleAsWrittenSwaps | debiai/debiai_project.py:418-422 | For every listed model whose id differs from its name, the handle `get_model` builds has the id as its name and the name as its id, so it is not the intended handle. |
| Project.HeaderFields | debiai/debiai_project.py:556-562 | The header row has one field per label, in order. |
| Project.EmptyDataUnstackable | debiai/debiai_project.py:564-565 | As written, stacking the header row on an empty data list fails. |
| Project.NumpyTableRows | debiai/debiai_tag.py:79-82 | With the empty case guarded, the table is the header row followed by the data rows. |
| Project.UploadReadsBack | debiai/debiai_utils.py:12-104 | A tree encoded from a frame reads back as the header followed by one row per distinct key path. |
| Project.GroupHeader | debiai/debiai_project.py:561-562 | The loop over a group's columns appends their names in order. |
| Project.LevelHeader | debiai/debiai_project.py:558-562 | The loop over one block appends its name, then its groups' column names. |
| Project.HeaderRow | debiai/debiai_project.py:556-562 | The header loop builds `Header(bs)`, whose length is the structure's width. |
| Project.CheckLevels | debiai/debiai_project.py:166-215 | The block loop reports the error the structure check specifies. |
| Project.CheckColumn | debiai/debiai_project.py:274-299 | One expected-result entry raises the error `ItemError` specifies. Otherwise it yields its canonical stored form. |
| Project.PostNpChunk | debiai/debiai_project.py:337-343 | One chunk is encoded and posted in one call. The log grows by that chunk's upload iff the call is not planned to fail. Nothing the client reads changes. |
| Project.PostDfChunk | debiai/debiai_project.py:378-383 | A missing label is reported as the first missing one, and no call is made. Otherwise one call is made, and the chunk passes exactly when that call is not planned to fail. The log grows by the chunk's upload iff it passes. |
| Project.UploadNp | debiai/debiai_project.py:330-348 | Passes iff none of its calls is planned to fail. It then logs every chunk's upload, in order, with the chunks' progress values. Otherwise it stops at the first planned failure and reports it, and the log holds exactly the uploads of the chunks before it. |
| Project.UploadDf | debiai/debiai_project.py:371-387 | An empty frame passes and sends nothing. A missing label is reported as the first missing one before anything is sent. With all labels present it passes iff none of its calls is planned to fail, and then logs every chunk's upload in order with the chunks' progress values. A failure is the first planned one, after the uploads of the chunks before it. |
| Project.PostDfStep | debiai/debiai_project.py:378-385 | One iteration of the frame upload loop keeps its invariant: one call per chunk, none failed, uploads logged, progress recorded. A failed call is the first planned failure. A missing label is reported on the first chunk. |
| Project.UploadSamples | debiai/debiai_project.py:325-348 | The header row is checked against the structure: a missing label is reported as the first missing one and nothing is sent. Otherwise the rows after the header are readable at the mapped positions, the upload passes iff none of its calls is planned to fail, and a failure is the first planned one. |
| Project.PostNpStep | debiai/debiai_project.py:336-346 | One iteration of the array upload loop keeps its invariant: one call per chunk, none failed, uploads logged, progress recorded. A failed call is the first planned failure. |
| Project.NpLoopDone | debiai/debiai_project.py:336-348 | When the array upload loop ends, no call failed and every chunk was uploaded in order with its progress value. |
| Project.DfLoopDone | debiai/debiai_project.py:377-387 | When the frame upload loop ends, every chunk was uploaded in order with its progress value. |
| Project.Project.constructor | debiai/debiai_project.py:34-43 | A new project holds its name, id and server, with all cached attributes unset. |
| Project.Project.Open | debiai/debiai_project.py:24-45 | Creating a project reads its document once: an unreadable project fails, otherwise the new project holds its name, id and server and the attributes the document carries. |
| Project.Project.Refresh | debiai/debiai_project.py:63-76 | Returns the project document and overwrites the attributes it carries. An unreadable project is an error and changes nothing. |
| Project.Project.GetBlockStructure | debiai/debiai_project.py:79-97 | After a refresh, returns the block structure iff it is truthy, and otherwise raises "not set". |
| Project.Project.SetBlockStructure | debiai/debiai_project.py:99-219 | Checks, in order: already created, then the structure check, then the upload. On success the structure is valid, stored and logged. Any failure sends nothing. The cached attributes are those of the refreshed document, with the structure replaced on success. Nothing the client reads from the server changes. |
| Project.Project.SetExpectedResults | debiai/debiai_project.py:242-302 | Checks, in order: already set, then the entry checks, then the upload. On success the canonical entries are stored and logged, and no other attribute changes. Any failure changes no attribute and logs nothing. Nothing the client reads from the server changes. |
| Project.Project.AddSamples | debiai/debiai_project.py:305-348 | Raises NotSet when the structure is unset. It is Malformed exactly when the stored structure is unreadable or there is no header row. Otherwise a missing label is reported as the first missing one, before any upload. With all labels present it returns True iff none of its upload calls is planned to fail, and then the rows after the header are uploaded chunk by chunk, in order. A failed call is the first planned failure, after the uploads of the chunks before it. |
| Project.Project.AddSamplesPd | debiai/debiai_project.py:350-387 | Raises NotSet when the structure is unset. It is Malformed exactly when the stored structure is unreadable. An empty frame returns True. Otherwise a missing label is reported as the first missing one, before any upload. With all labels present it returns True iff none of its upload calls is planned to fail, and then every row is uploaded chunk by chunk, in order. A failed call is the first planned failure, after the uploads of the chunks before it. |
| Project.Project.GetModel | debiai/debiai_project.py:406-423 | Returns the first model with the name, or None when every model is listed and none has it. An empty string or dict as the listing is iterated zero times and also gives None. The handle carries the model's own name and id, as intended. |
| Project.Project.CreateModel | debiai/debiai_project.py:425-441 | An empty name raises and sends nothing. Otherwise the model is created iff the call succeeds, and its handle has the name as both name and id. No attribute and nothing the client reads from the server changes. |
| Project.Project.DeleteModel | debiai/debiai_project.py:443-463 | A non-string or empty name raises before any read or call. Otherwise the project is refreshed. An unknown name (every model listed, none with it, or an empty string or dict as the listing) raises Unknown, and any other unreadable listing is Malformed. For a listed name one delete call is made with the first such model's own id, as intended (the source sends the listed name, see Findings), and it passes unless the backend rejects that call: an unreachable backend is ignored, as `utils.delete_model` returns False. |
| Project.Project.GetSelection | debiai/debiai_project.py:484-499 | Returns the first selection with the name, or None when there is none. |
| Project.Project.DeleteSelection | debiai/debiai_project.py:501-521 | A non-string or empty name raises before any call. An unknown name raises Unknown. For a listed name one delete call is made with the first such selection's id, and it passes unless the backend rejects it. No attribute and nothing the client reads from the server changes. |
| Project.Project.GetTag | debiai/debiai_project.py:536-544 | Returns the first tag with the name, or None when there is none. |
| Project.Project.GetNumpy | debiai/debiai_project.py:547-565 | Raises NotSet when the structure is unset. It is Malformed exactly when the stored structure is unreadable or a sample node does not fit it. Otherwise the result is the header stacked on the decoded rows, as written: an empty sample tree fails to stack. |
| Model.ExpectedNames | debiai/debiai_model.py:46-69 | One name per expected result, in order. An empty string or dict gives no names, as the loops run zero times. None means some entry has no name, or the value is not iterable as entries. |
| Model.EmptyExpectedPasses | debiai/debiai_model.py:46-90 | With expected results of "" or {} and a string, list or dict block structure, an empty results dict passes every check with the empty order list. |
| Model.StoredNamesOrder | debiai/debiai_model.py:66-69 | The default order is the stored expected-result names in declared order, and they are distinct. |
| Model.FirstNotIn | debiai/debiai_model.py:47-53 | The first element missing from the other list: every earlier element is present. |
| Model.CheckOrder | debiai/debiai_model.py:46-65 | The order check passes iff every expected name is in the order and every name in the order is expected. |
| Model.CheckBlockSound | debiai/debiai_model.py:202-223 | When the recursive check passes, every entry at the sample level holds exactly the expected number of values. |
| Model.CheckBlockWitness | debiai/debiai_model.py:204-213 | A width error names a path that leads to an entry of the given, wrong width. |
| Model.ResultsCheck | debiai/debiai_model.py:71-81 | The whole dict is checked before the upload: passing means every sample-level entry has `len(order)` values. An error names a full path to an entry of the wrong width. |
| Model.OnlyResultsTrans | debiai/debiai_model.py:101-107 | Uploads made only of this model's results compose across chunks. |
| Model.DictOutcomeLogs | debiai/debiai_model.py:84-90 | `add_results_dict` only ever logs its own model's result upload and returns True on success. |
| Model.SampleEntriesFacts | debiai/debiai_model.py:164-167 | At the sample level there is one entry per distinct sample key, every row's key has one, and every entry comes from a row. A repeated key keeps the later row's values. |
| Model.GroupKeys | debiai/debiai_model.py:171 | The group keys are distinct and cover every row's key. |
| Model.GroupRows | debiai/debiai_model.py:171 | A group holds exactly the rows with its key. |
| Model.PdKeys | debiai/debiai_model.py:170-176 | At every level the keys are distinct, every row's key is present, and every key comes from a row. |
| Model.PdPaths | debiai/debiai_model.py:148-178 | Every row's key path is present in the converted dict. |
| Model.RecordValues | debiai/debiai_model.py:166-167 | A row's result values, in expected-results order. |
| Model.StoreRecords | debiai/debiai_model.py:164-167 | The record loop builds what `SampleEntries` specifies. |
| Model.PdToDict | debiai/debiai_model.py:148-178 | The recursive conversion builds the tree that `PdTree` specifies. |
| Model.LevelNames | debiai/debiai_model.py:116-117 | The block names of the stored structure, one per block. |
| Model.Labels | debiai/debiai_model.py:139-141 | The expected-result names as column labels, one per result, in order. |
| Model.LabelColumns | debiai/debiai_model.py:116-119 | Every label is found iff each is a column. Each is then read from its first column. |
| Model.Model.constructor | debiai/debiai_model.py:13-17 | A new model holds its project, name and id. |
| Model.Model.ExpectedResultsExists | debiai/debiai_model.py:19-27 | Raises exactly when the project's expected results are unset. |
| Model.Model.AddResultsDict | debiai/debiai_model.py:29-90 | Refreshes the project first. It then checks the expected results, the dict's type, the order and the widths, before the single upload. The sample level is `len()` of the block structure less one, for a string, list or dict alike. A failed check sends nothing. |
| Model.Model.AddResultsPd | debiai/debiai_model.py:111-146 | Returns False without uploading when a block column is missing and is not `map_id`. Otherwise it uploads the converted dict through `add_results_dict`, and only this model's results are ever logged. |
| Model.Model.AddChunk | debiai/debiai_model.py:102-104 | One chunk's upload logs only this model's results. |
| Model.Model.AddResultsDf | debiai/debiai_model.py:92-109 | Hands over the contiguous chunks in order, with cumulative progress. It returns True once all are handed over, whatever each chunk returned. An error stops it after the failing chunk. |
| Tag.Loaded | debiai/debiai_tag.py:26-35 | A loaded value is kept. Otherwise the document's `tags` is taken, and the load raises iff it is absent or None. |
| Tag.LoadOnce | debiai/debiai_tag.py:27 | Once loaded, later loads change nothing, whatever the backend now holds. |
| Tag.HashKey | debiai/debiai_tag.py:45-48 | True and False key the counts as 1 and 0. Other values key themselves. |
| Tag.TallyStep | debiai/debiai_tag.py:44-48 | Counting one more hash raises its value's count by one, or sets it to 1. |
| Tag.TallyTotal | debiai/debiai_tag.py:44-48 | The counts sum to the number of hashes counted. |
| Tag.TallyPositive | debiai/debiai_tag.py:44-48 | Every key of the histogram is counted at least once. |
| Tag.TallyKeys | debiai/debiai_tag.py:44-48 | The histogram's keys are exactly the values carried by the hashes. |
| Tag.CountTags | debiai/debiai_tag.py:42-50 | The loop fails iff some value cannot key a dict. Otherwise it returns the histogram, whose counts sum to the number of hashes. |
| Tag.Pulled | debiai/debiai_tag.py:61-82 | A table always has at least its header row. |
| Tag.Tabled | debiai/debiai_tag.py:70-82 | The first row is the header built from the block structure. |
| Tag.Tabulate | debiai/debiai_tag.py:70-82 | The header and stacking steps produce `Tabled`. |
| Tag.PulledEmpty | debiai/debiai_tag.py:79-81 | With no tagged samples the table is just the header row. |
| Tag.TabledShaped | debiai/debiai_tag.py:70-82 | For a full-depth tree the table is the header followed by the decoded rows, all as wide as the header. |
| Tag.PulledShaped | debiai/debiai_tag.py:61-82 | For a full-depth tree of tagged samples the table is the header followed by the decoded rows. |
| Tag.Tag.constructor | debiai/debiai_tag.py:17-24 | A new tag holds its project, id and name, with its tags not loaded. |
| Tag.Tag.LoadTags | debiai/debiai_tag.py:26-35 | Fetches only while nothing is loaded, and caches the fetched value. It raises when the document has no usable `tags`. |
| Tag.Tag.TagNumber | debiai/debiai_tag.py:37-50 | Loads the tags and returns their histogram. The counts sum to the number of hashes. It fails when a value cannot key a dict. |
| Tag.Tag.GetNumpy | debiai/debiai_tag.py:61-82 | Refreshes the project and returns the header row followed by the tagged samples' rows. With no samples it returns the header row alone. |

## Left out

- HTTP, JSON decoding and logging (debiai/utils.py) are replaced by the `Backend.Server` object:
  - a read returns its state;
  - a write either fails, as the failure plan says, or is appended to the log;
  - what an accepted write does on the server side is not modelled, nor is a 409 "already exists" answer to `post_model`, which the model treats as accepted.
- Progress-bar output and `timestamp_to_date` are left out. Progress values are kept as ghost sequences.
- `__repr__` is left out.
- debiai.py, debiai_selection.py, config.py, blocks.py, the tutorials and the tests are not part of this model.
- `get_models`, `get_selections`, `get_tags`, `get_expected_results` and `expected_results_defined` are left out. The models, selections and tags are taken from the server's state.
- `add_results_np` and the `get_dataframe` methods are left out. Both are pandas conversions around the modelled operations.
- Result reconciliation by hash is not modelled: no hash is computed in the modelled files.
- NpToDict.GroupValues: `float()` is kept symbolic as `NpValue.Float(cell)` and never fails. In the source it raises ValueError on a cell such as "abc" or "True" in a number or boolean column (np_to_dict.py:88-89), so `add_samples` stops at that chunk after posting the earlier ones. The model treats every such cell as converted, so `Project.Project.AddSamples` returns True and logs an upload the source never sends.
- DfToDictTree.DfToDictTree: frame cells are only text or integers (`Values.Cell`), and JSON numbers (`Values.Value.Num`) only integers. Float, boolean and NaN cells are not modelled. Neither is Python's key equality `1 == 1.0 == True`, under which such cells share one group at df_to_dict_tree.py:34-46. The grouping facts are stated for text and integer keys only.
- Model.PdToDict: for the same reason, the results dict built by `__pd_to_dict_recur` is modelled with text and integer keys only. Keys that Python treats as equal across kinds (1, 1.0, True) are not merged.
- Project.Project.SetBlockStructure: the argument is typed as a list of dicts. The source accepts any object: None or a number raises TypeError at `len()`, and a string or dict is iterated character by character or key by key. Those inputs are not modelled.
- ProjectChecks.GroupError: a non-empty dict given as a group is reported as `UnreadableGroup`. The source iterates over its keys and raises the missing-name error, the missing-type error or a TypeError, depending on the first key, and the model does not keep key order. Whether the check raises is modelled exactly.
- ProjectChecks.ColumnError: a column that is not a dict is reported as `UnreadableGroup`. The source tests `"name" in column`, a substring test for a string and a membership test for a list, so it may raise the missing-name or missing-type error or a TypeError instead. It raises in every such case, as the model does.
- numpy dtype promotion in `np.append`/`vstack` and `pd.to_numeric` are not modelled. Table cells are names or stored values.
- Model.GroupKeys: pandas `groupby` orders its keys by sorting, while the model uses first-seen order. Only order-independent facts are stated about the grouping: keys distinct, every row present, every key from a row.
- A repeated column label in a frame is read at its first occurrence.
- Project.Levels: a stored block structure must be a list of dicts with string block names, whose columns are dicts with a string `name` and a string `type`. Anything else is `Malformed`. The source fails on some of these inputs with a TypeError or KeyError, but not on all.
- Project.Project.GetNumpy: refuses, as `Malformed`, a stored structure with a non-string block or column name, or a column without a string `type`. The source reads such a structure: its header loop appends any name with `np.append` and never reads `type` (debiai_project.py:556-562), and `_tree_to_array` does not fail on it either.
- Tag.Tag.GetNumpy: refuses the same structures for the same reason. The source's header loop at debiai_tag.py:72-77 reads them.
- Model.Model.AddResultsDict: the results argument is typed as `Values.ResultTree`, with nested keyed entries above the sample level and a list of values at it. A string at the sample level, which the `len(block)` test at debiai_model.py:204 accepts when its length matches, cannot be given. Neither can a scalar above the sample level, where the source raises a TypeError.
- Model.Model.AddResultsDict: a malformed expected-results entry (no `name`) is reported as `Malformed` before the order checks. The source would raise its KeyError at the first such entry it reaches.
- Model.LevelNames: non-string block names are `Malformed`.
- Model.Model.AddResultsPd: requires a non-empty chunk. It is only reached from `add_results_df`, whose chunks are never empty.
- Model.Model.AddResultsDf: the uploads it logs are stated only as "this model's results, appended". The exact dict of each chunk is stated one level down, by `AddResultsPd`.
- Model.Model.AddChunk: states only which uploads are logged. It is the one-chunk step of `AddResultsDf`.
- Model.CheckBlock: a non-empty list above the sample level is `Malformed`. The source would iterate over it and fail indexing.
- The modelled files call helpers under names that do not match their definitions: the underscore imports, `project_infos`, `backend_url` and `tree_to_array`. The model calls the defined helpers: `Refresh` for `_project_infos`, the server's state for the backend, and `TreeToArray` for `_tree_to_array`.
- Tag.HashKey: Python keeps the first-seen key object (True or 1) for a histogram key. The model always uses 1 and 0, so only the counts are stated, not which of the equal keys is shown.
- Tag.CountTags: the histogram is a map, so the order of the dict's keys is not modelled.
- Tag.Loaded: a non-dict tag document raises ValueError or TypeError depending on its kind. The model only separates `LoadFailed` from `Malformed`.
- The tag's creation and update dates are not kept.
- Update in place and aliasing are not modelled. The source's encoders mutate nested lists and dicts in place, and the model rebuilds values.

## Findings

| source | as written | input that shows it | evidently intended | confidence | as-written member | corrected member |
|---|---|---|---|---|---|---|
| debiai/debiai_project.py:564-565 | `get_numpy` stacks the header row on the decoded data even when the sample tree is empty. | A project with a set block structure and no samples: the data is `[]`, and the header is a non-empty 1-D array. | Return just the header row, as debiai_tag.py:80-81 does. | not executed | Project.EmptyDataUnstackable | Project.NumpyTableRows |
| debiai/debiai_project.py:419-422 | `get_model` passes `(id, name)` to the model constructor, whose parameters are `(name, id)` (debiai_model.py:13). | A listed model `{"id": "m1", "name": "resnet"}`: the handle's name is "m1" and its id "resnet". | The handle carries the model's own name and id. | not executed | Project.HandleAsWrittenSwaps | Project.Project.GetModel |
| debiai/debiai_project.py:451-463 | `delete_model` sends `model.id` of the handle `get_model` built, which is the listed name. A handle from `get_model` passed back in is looked up by its `.name`, which is the listed id. | A listed model `{"id": "m1", "name": "resnet"}` alone: `delete_model("resnet")` sends DELETE `/models/resnet`, and `delete_model(get_model("resnet"))` raises "does not exist". | Delete the model by its own id, and find a handle's model by the model's name. | not executed | Project.DeleteAsWrittenSendsName | Project.Project.DeleteModel |
