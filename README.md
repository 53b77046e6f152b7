# Card deck builder: icon grid, deck loader and indented logger

This project models the parts of the card deck builder that run on their own. The rest of the repository calls the host image editor (GIMP), and those calls are not modelled. Three pieces are modelled:

- **Icon grid** (`IconLayout`, `icon_layout.dfy`). `paste_icons_to_layer` splits a card's cost string on commas into rows. Each row is right-aligned to `img_width - inset`. Row `idx` sits at `inset + idx * (icon_size + grid_border)`. Each character is then classified:
  - a digit is pasted as a text item;
  - `o`, `c`, `h` and `s` load an icon file, which is pasted;
  - any other character is skipped.

  Every paste, offset and anchor is modelled as appending a `Placement` to a sequence. The method `PasteIconsToLayer` keeps the source's nested loops. It is proved equal to the specification function `Layout`. The (character, x, y) projection of `Layout`'s pastes is in turn proved equal to the reference grid `GridSlots`; the icon paths are stated separately, by `LayoutItems`. `GridSlots` has one slot per digit or mapped code, in row-major order, all of a row's slots at that row's single offset. The file `card_deck_builder/stashed_methods.py:1-42` holds a line-for-line copy of the plugin's function, and the same members model both copies.
- **Deck loader** (`DeckConfig`, `deck_config.dfy`). `load_card_deck_defs` checks that the definitions file exists. It then builds one `CardFaceConfig` per CSV row, in order. Its logging calls are treated as no-ops (see "## Left out"). `cost` is the list of cells from columns whose name starts with `cost` and whose value is truthy, in column order. `CardFaceConfig` never changes after construction, so it is a datatype, and its six-field `__init__` (`card_face_builder/helper.py:10-17`) is the datatype's constructor. `CardDeckConfig` is a class whose `cardDeck` field is set by loading.
- **Indented logger** (`Logging`, `indented_logger.dfy`). `IndentedLogger` keeps its indent level in an `IndentLevel` object. In the source that object is a class attribute, so every logger shares it; in the model, sharing holds when the caller passes the same `IndentLevel` to every logger it constructs. Entering a log block logs a line, then increments the level. Exiting decrements the level, then logs a line. Every line is indented by four spaces per level.

What the model takes as parameters:
- The host supplies the image width, which is the `imgWidth` parameter.
- `os.path.exists` becomes the `fileExists` parameter.
- `pandas.read_csv` becomes the `rows` parameter: a sequence of (column, cell) pairs per row.
- Python truthiness of a cell becomes the function parameter `truthy`.
- The wrapped `logging.Logger` becomes a ghost sequence of the lines it is asked to log.

## Model

| member | source | states |
|---|---|---|
| `IconLayout.SplitRows` | card_face_builder/plugin.py:21 | The rows are the comma-separated pieces of the cost: there is one more row than there are commas, so rows can be empty |
| `IconLayout.SplitRowsCommaFree` | card_face_builder/plugin.py:21 | No row contains a comma |
| `IconLayout.JoinSplitRows` | card_deck_builder/stashed_methods.py:7 | Joining the rows back with commas gives the cost string unchanged, so the split keeps every character in order |
| `IconLayout.SplitJoinRows` | card_face_builder/plugin.py:21 | For any non-empty list of comma-free rows, splitting their comma-join gives the same rows back (the other direction of the round trip) |
| `IconLayout.SplitRowsAppendSeparator` | card_face_builder/plugin.py:21 | A comma at the end of the cost adds one empty row |
| `IconLayout.SplitRowsAppendPlain` | card_face_builder/plugin.py:21 | Comma-free text at the end of the cost extends the last row |
| `IconLayout.XPos` | card_face_builder/plugin.py:35 | x_pos + n·(icon_size + grid_border) − grid_border = img_width − inset: a span of n cells, with n counting every character of the row, ends inset pixels from the right edge |
| `IconLayout.YPos` | card_deck_builder/stashed_methods.py:22 | Row 0 is at y = inset, and each further row is exactly icon_size + grid_border lower than the row before it |
| `IconLayout.MappedFilesArePlain` | card_face_builder/plugin.py:26-32 | Each of the four mapped icon files is a plain relative name: non-empty, with no slash at either end |
| `IconLayout.JoinPathParts` | card_face_builder/plugin.py:47 | Two-argument posixpath.join: the second part ends the result. Unless the second part is absolute, the first part starts it. When the first part is non-empty and has no trailing slash, exactly one slash separates them |
| `IconLayout.OrbPaths` | card_face_builder/plugin.py:18 | With the defaults, the starting icon_path is `card-face-builder/images/dice-icons`. Joining the orb file once gives `.../4-orb_128.png`, and joining it onto that gives `.../4-orb_128.png/4-orb_128.png` |
| `IconLayout.AccumulatedPathAppendsComponents` | card_face_builder/plugin.py:47 | When icon_path is re-joined at each icon, after k icons it is the icon directory with the k file names appended as k path components, in order |
| `IconLayout.RowSlots` | card_deck_builder/stashed_methods.py:23-42 | A row's reference slots all share the row's one (x, y), whatever the column. They are exactly the row's digits and mapped codes, in order |
| `IconLayout.GridSlotsCodes` | card_face_builder/plugin.py:34-56 | Read in row-major order, the reference grid's codes are the digits and mapped codes of the comma-joined rows. Commas and unknown codes contribute nothing |
| `IconLayout.EmptyRowTakesIndex` | card_face_builder/plugin.py:34-37 | An empty row produces no slots but still uses up a row index, so the next row is placed one step lower |
| `IconLayout.PasteRowSlots` | card_face_builder/plugin.py:37-56 | The inner loop over one row appends exactly that row's reference slots: one paste per digit or mapped code, all at the row's offset, and nothing for other characters |
| `IconLayout.PasteRowsSlots` | card_deck_builder/stashed_methods.py:20-42 | The outer loop appends the reference grid of its rows: each row at x_pos for its full length and y_pos for its index |
| `IconLayout.LayoutMatchesGrid` | card_face_builder/plugin.py:34-56 | All pastes for a cost string, projected to (character, x, y), equal the reference grid of its rows |
| `IconLayout.LayoutCodes` | card_deck_builder/stashed_methods.py:24-42 | The pasted characters, in order, are exactly the digits and mapped codes of the cost, so the number of pastes equals the number of such characters |
| `IconLayout.PasteChar` | card_face_builder/plugin.py:38-56 | A digit or mapped code appends exactly one paste at (x, y), whose item matches the character. Only a mapped code moves icon_path, by joining its file onto it. Any other character leaves the state unchanged |
| `IconLayout.PathsRecordedAt` | card_face_builder/plugin.py:47-49 | When each icon's path is recorded at its own turn, icon number j was loaded from the icon directory with the files of icons 1..j appended |
| `IconLayout.AppendConsistent` | card_face_builder/plugin.py:38-56 | One more paste keeps the invariant when its item matches its code and an icon's path is the previous icon_path joined with its file |
| `IconLayout.PasteCharConsistent` | card_face_builder/plugin.py:38-51 | One inner-loop step keeps the invariant: digits become text items, and mapped codes become their own file. icon_path is the accumulation of every icon file so far, and each icon was loaded from the path current at its turn |
| `IconLayout.PasteRowConsistent` | card_face_builder/plugin.py:37-51 | The same invariant holds across one row |
| `IconLayout.PasteRowsConsistent` | card_deck_builder/stashed_methods.py:20-37 | The same invariant holds across all rows |
| `IconLayout.LayoutItems` | card_deck_builder/stashed_methods.py:24-37 | Every pasted item matches its code: a digit becomes a text item of that digit, and a mapped code becomes code_to_file[code]. The i-th icon is loaded from the icon directory with the files of icons 1..i joined onto it |
| `IconLayout.PasteRowCodes` | card_face_builder/plugin.py:37-56 | The inner loop over one row, at one (x_pos, y_pos), leaves icon_path and the pastes exactly as PasteRow specifies |
| `IconLayout.PasteIconsToLayer` | card_face_builder/plugin.py:15-56 | The nested loops produce exactly Layout(cost). Its (character, x, y) projection is the reference grid, and its characters are the digits and mapped codes of the cost, in order |
| `IconLayout.TextAndOrbLayout` | card_face_builder/plugin.py:34-56 | With the defaults and a 1000-pixel image, the cost "1o" gives the text item 1 and one orb icon, loaded from the icon directory, both at (672, 64) |
| `IconLayout.DoubleOrbLayout` | card_face_builder/plugin.py:34-56 | With the defaults and a 1000-pixel image, the cost "oo" gives two orb icons at (672, 64), assuming both loads succeed. The second is requested from `.../4-orb_128.png/4-orb_128.png` |
| `IconLayout.RowItemsOverlap` | card_face_builder/plugin.py:35-56 | As written, the two items of the row "1o", a digit and an icon, are pasted at the same offset |
| `IconLayout.SecondIconPathNested` | card_face_builder/plugin.py:47 | As written, the second icon of "oo" is requested from the icon directory joined with the orb file twice, a path under a regular file |
| `IconLayout.IntendedItem` | card_face_builder/plugin.py:38-51 | The intended item for a digit or mapped code matches that code. An intended icon is loaded from the icon directory joined with its own file |
| `IconLayout.IntendedRow` | card_face_builder/plugin.py:37-56 | In the intended row, every item is at the row's y and matches its code, and every icon path is the directory joined with that icon's file |
| `IconLayout.IntendedGrid` | card_face_builder/plugin.py:34-56 | Across the intended grid, items match their codes and every icon is loaded from the icon directory joined with its own file |
| `IconLayout.IntendedRowCells` | card_face_builder/plugin.py:35-37 | When character col is placed at x0 + col·step, the items lie in [x0, x0 + n·step) and consecutive items are at least one step apart |
| `IconLayout.IntendedRowFitsSpan` | card_face_builder/plugin.py:35-37 | With column offsets, a row's items lie between x_pos and img_width − inset and never overlap |
| `IconLayout.IntendedIconPaths` | card_face_builder/plugin.py:47-48 | In the intended grid, every icon path is the icon directory + "/" + its own file, whatever was loaded before |
| `IconLayout.IntendedRowCodes` | card_face_builder/plugin.py:37-51 | An intended row pastes exactly the row's digits and mapped codes, in order |
| `IconLayout.IntendedGridCodes` | card_face_builder/plugin.py:34-56 | The intended grid pastes the same characters, in the same order, as the code does. Only offsets and paths differ |
| `DeckConfig.Field` | card_face_builder/helper.py:42-47 | getattr on a row returns a cell of the named column when the row has that column. Otherwise it fails with that column's missing-field error |
| `DeckConfig.CostArray` | card_face_builder/helper.py:39-40 | The cost holds no more cells than the row has columns, and every cell in it is truthy. Which column contributes which cell is stated by `CostArrayColumn` |
| `DeckConfig.CostArrayAppend` | card_face_builder/helper.py:39-40 | The cost of two column runs side by side is the cost of the first followed by the cost of the second, so column order is kept |
| `DeckConfig.CostArrayColumn` | card_face_builder/helper.py:39-40 | A column contributes its cell, in its own place, exactly when its name starts with "cost" and the cell is truthy. Otherwise it contributes nothing |
| `DeckConfig.ConfigOf` | card_face_builder/helper.py:39-48 | A row yields a config exactly when it has the name, value, sect, front and back columns. Each of those fields is copied from its column, and the cost is the cost filter. Otherwise the error names the first missing column, in argument order |
| `DeckConfig.CardDeckConfig.LoadCardDeckDefs` | card_face_builder/helper.py:29-51 | A missing file fails before any row is read. Otherwise the result has one config per row, in row order, and the i-th is the config of row i. Loading fails exactly when some row fails, and then with the error of the first failing row |
| `DeckConfig.CardDeckConfig.Create` | card_face_builder/helper.py:26-27 | Construction passes the loader's outcome on unchanged. A missing file fails with FileNotFound(path). Otherwise it fails with the first failing row's error, or it succeeds with one card per row, card i built from row i with the caller's truthiness. num_cards() is then the number of rows |
| `DeckConfig.CardDeckConfig.NumCards` | card_face_builder/helper.py:56-57 | num_cards() is the number of rows the deck was loaded from. As a function, it changes no state |
| `Logging.Indent` | card_deck_builder/utils.py:18 | The indent is exactly 4·level spaces, and empty for a level of 0 or below |
| `Logging.IndentDeeper` | card_deck_builder/utils.py:33 | One level deeper is the same indent followed by four more spaces |
| `Logging.IndentLevel.constructor` | card_deck_builder/utils.py:4 | The shared per-thread level starts out without a value |
| `Logging.IndentedLogger.constructor` | card_deck_builder/utils.py:6-9 | The first logger sets the shared level to 0. Later loggers leave an existing level untouched |
| `Logging.IndentedLogger.Info` | card_deck_builder/utils.py:32-34 | info logs the message at the current indent and changes nothing else, the level included |
| `Logging.IndentedLogger.LogBlock` | card_deck_builder/utils.py:29-30 | log_block returns a fresh, not yet entered block for the method name and parameters, and changes no state |
| `Logging.Block.constructor` | card_deck_builder/utils.py:12-15 | A block stores its logger, method name and parameters |
| `Logging.Block.Enter` | card_deck_builder/utils.py:17-22 | __enter__ logs the entering line at the indent of the current level, then increments the level by 1 |
| `Logging.Block.Exit` | card_deck_builder/utils.py:24-27 | __exit__ decrements the level by 1, then logs the exiting line at the new level's indent |
| `Logging.ParamStr` | card_deck_builder/utils.py:19 | The parameter string is empty exactly when there are no parameters. It ends with the last name=value pair, after the string of the others and ", " |
| `Logging.EnteringLine` | card_deck_builder/utils.py:18-20 | The entering line is the level's indent, "↳ Entering ", the method name and "(", and it ends with the parameter string and ")" |
| `Logging.ExitingLine` | card_deck_builder/utils.py:26-27 | The exiting line is the level's indent and "↲ Exiting ", and it ends with the method name |
| `Logging.NestedLinesIndented` | card_deck_builder/utils.py:18-27 | One level deeper, the entering and exiting lines are the same lines with four more spaces in front |
| `Logging.LoggedBlock` | card_deck_builder/utils.py:17-34 | Across an enter, an info and an exit, the entering and exiting lines carry the same indent and the message is one level deeper. The level ends where it started |

## Left out

- All calls into the image editor: loading files, copy, paste, anchor, text layers, inserting layers, opacity, fill and undo groups. Each paste, offset and anchor is one appended `Placement`. The image width is a parameter.
- `build_info_layer`, `build_mask_layer`, `adjust_base_image`, `add_background_layer` and `add_text_layer_to_info_layer`: these are sequences of host calls with no logic of their own.
- The plugin registration classes and the command-line script `build_cards.py`: they only register menus and parse arguments.
- `pandas.read_csv` and the loader's per-row `logger.info` line (helper.py:50): rows arrive as given sequences of (column, cell) pairs. How pandas renames columns or fills empty cells (NaN) is not modelled, and truthiness of a cell is a parameter.
- The floating-point colour and opacity constants: they are passed straight to the host.
- `threading.local`: the model is one thread's level. Sharing one level among loggers is the caller's obligation: it must pass the same `IndentLevel` object to every `IndentedLogger`. Nothing in the model enforces this.
- The wrapped logger's own formatting, and `repr` of block parameters: parameters arrive already rendered.
- `IconLayout.PasteIconsToLayer` and `IconLayout.Layout`: these do not model pathlib's normalisation of `Path(project_home) / icon_dir` (dropping `.`, duplicate or trailing slashes). The model uses POSIX `os.path.join` for that step too, which agrees with pathlib for the plugin's default arguments.
- `IconLayout.Layout` and `IconLayout.PasteIconsToLayer`: every icon file load is assumed to succeed. With line 47 as written, the second icon of a call is requested from a path under the first icon's file, which cannot exist. The source's load then fails and the call ends before that paste. For a cost with two or more icon codes, the model keeps pasting past that point. `LayoutCodes` and `LayoutMatchesGrid` therefore describe the intended sequence of pastes, not what a run of the source would complete.
- `IconLayout.IsDigit`: this accepts only the ASCII digits 0-9. Python's `str.isdigit` also accepts other Unicode digits, such as superscripts.
- `cost` type mismatch: the loader stores `cost` as a list (helper.py:45), while the layout calls `.split(",")` on a string (plugin.py:21). The layout takes the cost as a string, and the loader's cost is a sequence of cells.
- `DeckConfig.CardDeckConfig.LoadCardDeckDefs`: the loader logs through an `IndentedLogger` (helper.py:5-7) and calls `logger.debug` on it (helper.py:33, 34, 37, 38, 41). The `IndentedLogger` modelled here (card_deck_builder/utils.py:3-34) defines no `debug` method. With that logger, loading an existing file would stop with an attribute error before reading a row. The module that helper.py imports as `utils` is not part of this model, so the model treats these calls as no-ops and returns one config per row.
- Other integration errors in the plugin are not reproduced:
  - a `CardFaceConfig` is constructed with four of its six arguments and without an import;
  - `log_block` is called with positional arguments;
  - `utils.py` does not import `logging`.
- Exceptions inside a `with` block are not modelled: `__exit__` is modelled only for a body that completes.
- `__enter__` returns the block itself; that return value is not modelled.

## Findings

| source | as written | input that shows it | evidently intended | confidence | as-written member | corrected member |
|---|---|---|---|---|---|---|
| card_face_builder/plugin.py:35-56 | every item of a row is pasted at the same x_pos; `icon_col_idx` is never used, so the items of a row pile on top of each other | cost "1o", defaults, image width 1000: the digit 1 and the orb icon are both pasted at (672, 64); only one icon file is loaded | item `col` of a row at `x_pos + col·(icon_size + grid_border)`, so a row fills the span that x_pos was computed for, ending inset pixels from the right edge without overlap | medium, not executed | `IconLayout.RowItemsOverlap` | `IconLayout.IntendedRowFitsSpan` |
| card_face_builder/plugin.py:47 | `icon_path` is re-joined onto its own previous value, so from the second icon on, the path nests one icon file inside another | cost "oo", defaults: the second icon is requested from `card-face-builder/images/dice-icons/4-orb_128.png/4-orb_128.png` (no such file can exist, since it lies under a regular file) | each icon loaded from `icon_dir / code_to_file[code]` | high, not executed | `IconLayout.SecondIconPathNested` | `IconLayout.IntendedIconPaths` |

Both rows apply equally to `card_deck_builder/stashed_methods.py:21-42`. `Layout` and `PasteIconsToLayer` keep the code as written. The corrected behaviour is `IntendedGrid`, built from `IntendedRow` and `IntendedItem`. `IntendedGridCodes` proves that it pastes the same characters in the same order, and changes only offsets and paths.
