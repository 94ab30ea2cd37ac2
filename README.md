# Cofbot triggers and utilities: a Dafny model

This project models the core of Cofbot, a Discord bot, in Dafny and proves
properties of the model. Four pieces are covered:

- **Trigger dispatch** (`trigger_manager.dfy`, module `TriggerManager`).
  - The `TriggerCog` class keeps the trigger table and the cache of
    (trigger, compiled pattern) pairs that the table query rebuilds, oldest
    trigger first.
  - On every message the cog sends the response of the first cached trigger
    whose pattern is found in the message, and nothing else.
  - The regular-expression engine is a parameter, `search`. A compiled
    pattern keeps only its source text.
- **Small helpers** (`misc.dfy`, module `Misc`).
  - `human_time` splits a second count into weeks, days, hours, minutes and
    seconds, and prints the non-zero ones. It is modelled as a method
    proved equal to a specification function.
  - A strict reader, `ReadHumanTime`, serves as the partner for
    `human_time`: it parses the printed text back into a second count.
  - Also modelled: `formatted_timestamp`, `dict_to_simple_namespace` over a
    small Python-value datatype, and the emote pattern `<a?:name:id>` as a
    recogniser.
- **Paginator** (`pages.dfy`, module `Pagination`). The `Pages` class holds
  the page on show and the five navigation buttons. Every navigation goes
  through `ClampIndex` and `ShowPage`. The proofs show that:
  - the page index always stays in range;
  - the disabled flags and the goto label always describe the page on show;
  - an invalid goto leaves everything unchanged.
- **Help-page assembly** (`help_pages.dfy`, module `HelpPages`).
  - Page footers carry "Page i/n" and links to the previous and next pages.
  - Every page gets a title, and the first page gets a right-justified
    table of contents.
  - `add_split_fields` has two layouts: the legacy one-field-per-entry
    layout and the three-column grid.
- **Shared pieces.**
  - `text.dfy` (module `Text`) models Python's `str()` of integers,
    `int()` of decimal text, `str.join`, `str.split` on one character and
    `str.rjust`, with their round trips.
  - `embeds.dfy` (module `Embeds`) is the embed record: an optional title,
    an optional footer and a list of fields.

## Model

| member | source | states |
|---|---|---|
| Text.IntToStringRoundTrip | utils/pages.py:15 | `int()` reads back the decimal text of every integer, negative ones included |
| Text.NatToStringLengthMonotone | triggers/help_pages.py:38-39 | a larger page number never has fewer digits, so `len(str(count))` is the widest number column |
| Text.SplitJoin | utils/misc.py:42 | splitting on a separator undoes joining with it when no part contains the separator |
| Text.RJust | triggers/help_pages.py:46 | `rjust` gives at least the requested width, with the text at the end and spaces before it |
| Misc.Decompose | utils/misc.py:21-29 | the divmod chain's units recombine to the input; days < 7, hours < 24, minutes < 60 and seconds < 60 for every input; weeks are non-negative for non-negative input |
| Misc.HumanTime | utils/misc.py:18-42 | the text is the non-zero units of `Decompose(seconds)`, in the order w, d, h, m, s, each `str(value)` plus its suffix, joined by single spaces |
| Misc.PiecesWellShaped | utils/misc.py:31-40 | every printed piece is at least two characters, has no space and ends in a unit suffix |
| Misc.HumanTimeRoundTrip | utils/misc.py:26-42 | the strict reader gets the original second count back from the printed text, so no information is lost and units appear in order without repeats |
| Misc.HumanTimeEmptyIffZero | utils/misc.py:31-42 | the text is empty exactly when the input is 0 |
| Misc.HumanTimeTrimmed | utils/misc.py:42 | non-empty text neither starts nor ends with a space |
| Misc.TimestampRoundTrip | utils/misc.py:45-46 | about `FormattedTimestamp` (`formatted_timestamp`): the timestamp and the mode can be read back from `<t:timestamp:mode>`, for any mode; the mode defaults to `R` |
| Misc.DictToSimpleNamespace | utils/misc.py:12-15 | a non-dict is returned unchanged; a dict becomes a namespace with the same keys in the same order; the result is never a dict |
| Misc.DictToSimpleNamespaceRoundTrip | utils/misc.py:12-15 | for data with no namespaces, every nested dict (through dict values) becomes a namespace, and converting namespaces back restores the input |
| Misc.ParseEmoteSound | utils/misc.py:9 | whatever the recogniser accepts is `<`, an optional `a`, `:`, a non-empty `[A-Za-z0-9_]` name, `:`, a non-empty digit id and `>`, written out exactly |
| Misc.ParseEmoteComplete | utils/misc.py:9 | every such emote is accepted and read back as itself |
| TriggerManager.InsertByCreation | triggers/trigger_manager.py:35 | inserting a row into a list sorted by creation time keeps it sorted and adds exactly that row |
| TriggerManager.OrderByCreation | triggers/trigger_manager.py:35 | `ORDER BY created_at` gives the table's rows, each once, sorted by creation time |
| TriggerManager.CacheOfProperties | triggers/trigger_manager.py:34-36 | about `CacheOf` (the cache the table query and compilation build): the cache has one pair per table row; the rows are sorted by creation time and are a permutation of the table; each pattern is compiled from its own row's `regex_pattern` |
| TriggerManager.TriggerCog.UpdateTriggers | triggers/trigger_manager.py:34-36 | the new cache is the table query with every pattern compiled, and nothing but the cache changes |
| TriggerManager.CacheOfNewest | triggers/trigger_manager.py:38-50 | a row created no earlier than every other row goes to the end of the cache, and the rest of the cache is unchanged |
| TriggerManager.TriggerCog.CreateTestTrigger | triggers/trigger_manager.py:38-50 | starting from a cache that matches the table, saves exactly one row (`TestTrigger`, the fixed test trigger made at `now`) and rebuilds the cache; the cache again matches the table, is one entry longer than before and contains the new row; when the clock has not gone backwards, the new cache is the old cache with the new pair appended |
| TriggerManager.TriggerCog.constructor | triggers/trigger_manager.py:24-32 | after start-up the table is the existing rows plus the test trigger, and the cache matches the table |
| TriggerManager.FirstMatch | triggers/trigger_manager.py:54-57 | the index found matches, no earlier pair matches, and None means no pair matches |
| TriggerManager.FirstMatchUnique | triggers/trigger_manager.py:54-57 | any matching index with no earlier match is the one `FirstMatch` finds |
| TriggerManager.TriggerCog.OnMessage | triggers/trigger_manager.py:53-57 | at most one message is sent; it is exactly the stored response of the first matching trigger in cache order; nothing is sent exactly when no row of the table matches; otherwise the message is the response of a matching table row created no later than any other matching row |
| TriggerManager.EarliestMatchingRow | triggers/trigger_manager.py:34-57 | dispatch over `CacheOf(table)`, stated in terms of the table: no trigger fires iff no row's pattern is found in the message; the one that fires is a row of the table whose pattern is found, created no later than every other such row |
| TriggerManager.DispatchIgnoresOtherFields | triggers/trigger_manager.py:53-57 | tables that agree on every row's pattern, response and creation time get the same answer; mode, user pattern, cooldown, ignore_case and uses_wildcards are never read |
| Pagination.Placeholder | utils/pages.py:10 | the modal hint is `1-` followed by the page count in decimal |
| Pagination.PageLabelRoundTrip | utils/pages.py:79 | about `PageLabel`: the goto label names the one-based page on show and the page count, and both can be read back |
| Pagination.Pages.ClampIndex | utils/pages.py:97-98 | the result is a valid page index; an in-range index is kept; below range gives 0; above range gives the last page |
| Pagination.Pages.constructor | utils/pages.py:23-34 | needs at least one page; starts on the clamped start page; goto is disabled exactly when there is one page; the other buttons start enabled |
| Pagination.Pages.ShowPage | utils/pages.py:74-90 | moves to the clamped index; first and previous are disabled iff on page 0; next and last iff on the last page; the label is `page/count`; returns that page's embed |
| Pagination.Pages.Show | utils/pages.py:36-37 | shows the current page without moving |
| Pagination.Pages.First | utils/pages.py:43-45 | goes to page 0 |
| Pagination.Pages.Previous | utils/pages.py:47-49 | goes one page back; stays put on the first page |
| Pagination.Pages.Next | utils/pages.py:66-68 | goes one page on; stays put on the last page |
| Pagination.Pages.Last | utils/pages.py:70-72 | goes to the last page |
| Pagination.Pages.Goto | utils/pages.py:51-64 | a typed number from 1 to the page count shows that page; a missing, non-numeric or out-of-range number changes nothing and returns the complaint naming the range (`InvalidPageMessage`, utils/pages.py:60) |
| HelpPages.FooterNamesNeighbours | triggers/help_pages.py:28-32 | reading the text between `Previous: [` (or `Next: [`) and `]` back out of a footer link gives the neighbouring page's plain title when it has one and its formatted title otherwise, which is the choice `get_title_from_info` (triggers/help_pages.py:53-54) makes |
| HelpPages.MakeTitleReadBack | triggers/help_pages.py:82-83 | about `MakeTitle` (`make_title`): the page title is the fixed help prefix followed by the title, which can be read back |
| HelpPages.FooterLinks | triggers/help_pages.py:25-34 | about `Footer` and `FooterParts` (the footer loop): page i's footer starts with `Page i+1/n`; it has a `Previous:` part iff i > 0 and a `Next:` part iff i < n-1, each naming the neighbour's link title, in that order |
| HelpPages.AddPageNumbers | triggers/help_pages.py:25-34 | every page gets its own footer, and nothing else on the page changes |
| HelpPages.TocLineAligned | triggers/help_pages.py:38-46 | about `TocLine` (one contents line): every contents line has the page number right-justified to the digit width of the page count, so all titles start at the same column |
| HelpPages.AddTitles | triggers/help_pages.py:37-46 | every page's title becomes `make_title` of its formatted title; the contents lines list every page in order |
| HelpPages.Get | triggers/help_pages.py:7-50 | one embed per page info, in order; each has its footer and title; only the first page gets the table-of-contents field, added after its own fields |
| HelpPages.LegacyFieldsShape | triggers/help_pages.py:58-63 | the legacy layout adds one bold title field, then exactly one non-inline field per entry, named `- ` plus the entry's first cell |
| HelpPages.LegacyEntryCells | triggers/help_pages.py:61 | for an entry with more than one cell whose remaining cells contain no newline, the entry field's value splits on newlines back into those cells; a cell that itself holds a newline (the help text has such cells) does not split back |
| HelpPages.AddNameCells | triggers/help_pages.py:68-69 | adds one inline header field per column name |
| HelpPages.AddValueCells | triggers/help_pages.py:75-76 | adds one inline field per cell of an entry |
| HelpPages.AddBlanks | triggers/help_pages.py:71-72 | adds the given number of blank inline fields |
| HelpPages.HeaderRowAligned | triggers/help_pages.py:68-72 | the header row is exactly three inline fields: the column names, then blanks |
| HelpPages.EntryRowsAligned | triggers/help_pages.py:74-79 | when each entry has one cell per column, every entry takes exactly three inline fields: its cells, then blanks |
| HelpPages.AddSplitFields | triggers/help_pages.py:57-79 | the legacy layout adds the legacy fields; the column layout refuses fewer than 1 or more than 3 columns, and otherwise adds the header row and then one row per entry |

## Left out

- Discord I/O is not modelled: sending and editing messages, deferring and following up on interactions, showing the modal, waiting for it, `original_response`, and `on_timeout`/`clear_items`. Showing a page returns the embed that would be sent. The bot object and the start-up database connection and table creation are left out too.
- The regular-expression engine is not modelled (`re.compile`, `pattern.search`, `URL_REGEX`). Search is the `search` parameter, and a compiled pattern is its source text.
- Misc.ParseEmoteSound: the emote pattern is modelled as a recogniser for a whole string. Searching for emotes inside longer text is not part of this model.
- The database (peewee) is modelled as the sequence `table`. Saving a row appends to it.
- OrderByCreation: SQL leaves the order of rows with equal `created_at` open. The model keeps such rows in table order.
- `datetime.datetime.now` is the `now` parameter, and a timestamp is a natural number.
- `ConfirmationView` in utils/misc.py is not modelled. Its only logic is UI event handling: it rejects presses from users other than the one asked, records the yes/no answer and stops on a press or a timeout.
- The thirteen page builders in triggers/help_pages.py (`get_preface` through `get_property_uses_wildcards`) only hold constant prose. `Get` takes the page infos as a parameter instead of building them.
- HelpPages.Get: requires at least one page. The source always has thirteen pages, and with none it would fail when indexing the first page.
- HelpPages.AddSplitFields: `USE_LEGACY_INLINE_SPLITS` is a constant `True` in the source. It becomes the `legacy` parameter, so that both layouts are modelled.
- HelpPages.AddSplitFields: the legacy layout requires every entry to be non-empty. The source fails with an index error on an empty entry, after adding some fields.
- HelpPages.AddSplitFields: the failed column-count assertion is modelled as the result None.
- Embeds are modelled as values. Python mutates embed objects in place, and the model returns updated copies, so aliasing is not captured (for example, one embed object appearing in two page infos).
- Text.ParseInt: the modal's `int()` is modelled as an optional minus sign followed by ASCII digits. Python's `int()` also accepts surrounding whitespace, a `+` sign, underscores between digits and non-ASCII digits.
- Pagination.Pages.Goto: the model allows `Goto` while the goto button is disabled. In the running bot Discord does not deliver presses of a disabled button.
- Misc.DictToSimpleNamespace: dictionary keys are strings. `SimpleNamespace(**d)` rejects other keys with a TypeError. As in the source, lists and existing namespaces are returned as they are, without looking inside.
- Misc.HumanTime: models integer input only. Python's `divmod` also accepts floats.
- Misc.FormattedTimestamp: the timestamp is an integer and the mode a string. The source formats any value with `str()`.
- The trigger rows carry fields for a matching mode, a user pattern, a cooldown, case folding and wildcards. The repository's description also covers position renumbering, cooldown suppression, response variants and templating, and global-settings fallback. The modelled code acts on none of these: it only dispatches on `regex_pattern` and sends `response`. The model follows the code and does not invent that behaviour.
- triggers/entities.py, triggers/descriptions.py and main.py are not part of this model. They hold field declarations, constant help text and bot start-up.
