/**
 * Assembly of the trigger help pages (triggers/help_pages.py): page footers
 * with links to the neighbouring pages, page titles, the table of contents on
 * the first page, and the two layouts of multi-column fields.
 *
 * Each page arrives as an `EmbedInfo`: the page's embed, its formatted title
 * and, optionally, a plain title used in the footer links.
 */
module HelpPages {
  import opened Text
  import opened Embeds

  datatype EmbedInfo = EmbedInfo(embed: Embed, formattedTitle: string, plainTitle: Option<string>)

  /** The text a blank field carries (Python's `""`). */
  const BlankField := Field("", "", true)

  // ---------------------------------------------------------------------------
  // Titles
  // ---------------------------------------------------------------------------

  /** `get_title_from_info`: the plain title when the page has one, the formatted title otherwise. */
  function GetTitleFromInfo(info: EmbedInfo): string {
    match info.plainTitle
    case Some(plain) => plain
    case None => info.formattedTitle
  }

  /** `make_title`: the help prefix, then the title. */
  function MakeTitle(title: string): string {
    "Triggers Help - " + title
  }

  /** A page title is the title after a fixed prefix, so the title can be read back from it. */
  lemma MakeTitleReadBack(title: string)
    ensures StartsWith(MakeTitle(title), "Triggers Help - ")
    ensures MakeTitle(title)[|"Triggers Help - "|..] == title
  {
  }

  function Titles(infos: seq<EmbedInfo>): (titles: seq<string>)
    ensures |titles| == |infos|
    ensures forall i :: 0 <= i < |infos| ==> titles[i] == GetTitleFromInfo(infos[i])
  {
    seq(|infos|, i requires 0 <= i < |infos| => GetTitleFromInfo(infos[i]))
  }

  // ---------------------------------------------------------------------------
  // Footers
  // ---------------------------------------------------------------------------

  function PageCounter(i: nat, n: nat): string {
    "Page " + NatToString(i + 1) + "/" + NatToString(n)
  }

  function PreviousLink(title: string): string {
    "Previous: [" + title + "]"
  }

  function NextLink(title: string): string {
    "Next: [" + title + "]"
  }

  /** The parts of page `i`'s footer, given every page's link title. */
  function FooterParts(titles: seq<string>, i: nat): seq<string>
    requires i < |titles|
  {
    [PageCounter(i, |titles|)]
    + (if i > 0 then [PreviousLink(titles[i - 1])] else [])
    + (if i < |titles| - 1 then [NextLink(titles[i + 1])] else [])
  }

  function Footer(titles: seq<string>, i: nat): string
    requires i < |titles|
  {
    Join(FooterParts(titles, i), " | ")
  }

  /**
   * Page `i`'s footer begins with its page counter; it links to the previous
   * page exactly when there is one and to the next page exactly when there is
   * one, naming that page's title.
   */
  lemma FooterLinks(titles: seq<string>, i: nat)
    requires i < |titles|
    ensures StartsWith(Footer(titles, i), PageCounter(i, |titles|))
    ensures var parts := FooterParts(titles, i);
            |parts| == 1 + (if i > 0 then 1 else 0) + (if i < |titles| - 1 then 1 else 0) &&
            ((exists k :: 0 <= k < |parts| && StartsWith(parts[k], "Previous: [")) <==> i > 0) &&
            ((exists k :: 0 <= k < |parts| && StartsWith(parts[k], "Next: [")) <==> i < |titles| - 1) &&
            (i > 0 ==> parts[1] == PreviousLink(titles[i - 1])) &&
            (i < |titles| - 1 ==> parts[|parts| - 1] == NextLink(titles[i + 1]))
  {
    var parts := FooterParts(titles, i);
    JoinStartsWithFirst(parts, " | ");
    CounterIsNoLink(i, |titles|);
    if i > 0 {
      PreviousLinkKind(titles[i - 1]);
    }
    if i < |titles| - 1 {
      NextLinkKind(titles[i + 1]);
    }
  }

  /** The title a footer link names: the text between `prefix` and a closing `]`. */
  function ReadLink(prefix: string, part: string): Option<string> {
    if StartsWith(part, prefix) && |part| > |prefix| && part[|part| - 1] == ']' then
      Some(part[|prefix|..|part| - 1])
    else
      None
  }

  /**
   * The footer links name the neighbouring pages by their plain title when
   * they have one and by their formatted title otherwise.
   */
  lemma FooterNamesNeighbours(infos: seq<EmbedInfo>, i: nat)
    requires i < |infos|
    ensures var parts := FooterParts(Titles(infos), i);
            i > 0 ==>
              ReadLink("Previous: [", parts[1]) ==
                Some(if infos[i - 1].plainTitle.Some? then infos[i - 1].plainTitle.value else infos[i - 1].formattedTitle)
    ensures var parts := FooterParts(Titles(infos), i);
            i < |infos| - 1 ==>
              ReadLink("Next: [", parts[|parts| - 1]) ==
                Some(if infos[i + 1].plainTitle.Some? then infos[i + 1].plainTitle.value else infos[i + 1].formattedTitle)
  {
    var titles := Titles(infos);
    FooterLinks(titles, i);
    if i > 0 {
      LinkReadBack("Previous: [", titles[i - 1]);
    }
    if i < |infos| - 1 {
      LinkReadBack("Next: [", titles[i + 1]);
    }
  }

  lemma LinkReadBack(prefix: string, title: string)
    ensures ReadLink(prefix, prefix + title + "]") == Some(title)
  {
    var part := prefix + title + "]";
    assert part[..|prefix|] == prefix;
    assert part[|prefix|..|part| - 1] == title;
  }

  lemma CounterIsNoLink(i: nat, n: nat)
    ensures !StartsWith(PageCounter(i, n), "Previous: [") && !StartsWith(PageCounter(i, n), "Next: [")
  {
    assert PageCounter(i, n)[0] == 'P' && PageCounter(i, n)[1] == 'a';
  }

  lemma PreviousLinkKind(title: string)
    ensures StartsWith(PreviousLink(title), "Previous: [") && !StartsWith(PreviousLink(title), "Next: [")
  {
    assert PreviousLink(title)[0] == 'P';
  }

  lemma NextLinkKind(title: string)
    ensures StartsWith(NextLink(title), "Next: [") && !StartsWith(NextLink(title), "Previous: [")
  {
    assert NextLink(title)[0] == 'N';
  }

  // ---------------------------------------------------------------------------
  // The table of contents
  // ---------------------------------------------------------------------------

  /** The contents line for page `i` of `n`: the page number right-justified to the width of `n`, then the title. */
  function TocLine(i: nat, n: nat, formattedTitle: string): string {
    "`Page " + RJust(NatToString(i + 1), |NatToString(n)|) + "` " + formattedTitle
  }

  function FormattedTitles(infos: seq<EmbedInfo>): (titles: seq<string>)
    ensures |titles| == |infos|
    ensures forall i :: 0 <= i < |infos| ==> titles[i] == infos[i].formattedTitle
  {
    seq(|infos|, i requires 0 <= i < |infos| => infos[i].formattedTitle)
  }

  /** The table of contents: one line per page, in page order. */
  function TocLines(formattedTitles: seq<string>): (lines: seq<string>)
    ensures |lines| == |formattedTitles|
    ensures forall i :: 0 <= i < |formattedTitles| ==> lines[i] == TocLine(i, |formattedTitles|, formattedTitles[i])
  {
    seq(|formattedTitles|, i requires 0 <= i < |formattedTitles| => TocLine(i, |formattedTitles|, formattedTitles[i]))
  }

  function TocField(infos: seq<EmbedInfo>): Field {
    Field("Table of Contents", Join(TocLines(FormattedTitles(infos)), "\n"), false)
  }

  /**
   * Every contents line of an `n`-page list has its number column exactly as
   * wide as `n`'s digits: spaces, then the page number, then the title at a
   * fixed offset.
   */
  lemma TocLineAligned(i: nat, n: nat, formattedTitle: string)
    requires i < n
    ensures var w, line, number := |NatToString(n)|, TocLine(i, n, formattedTitle), NatToString(i + 1);
            |line| == 8 + w + |formattedTitle| &&
            line[..6] == "`Page " &&
            (forall j :: 6 <= j < 6 + w - |number| ==> line[j] == ' ') &&
            line[6 + w - |number|..6 + w] == number &&
            line[6 + w..8 + w] == "` " &&
            line[8 + w..] == formattedTitle
  {
    NatToStringLengthMonotone(i + 1, n);
    var w, number := |NatToString(n)|, NatToString(i + 1);
    var cell := RJust(number, w);
    TocLineLayout(cell, formattedTitle);
    assert cell[w - |number|..] == number;
  }

  /** Where the pieces of a contents line sit, for a number column `cell`. */
  lemma TocLineLayout(cell: string, formattedTitle: string)
    ensures var line, w := "`Page " + cell + "` " + formattedTitle, |cell|;
            |line| == 8 + w + |formattedTitle| &&
            line[..6] == "`Page " &&
            (forall j :: 6 <= j < 6 + w ==> line[j] == cell[j - 6]) &&
            (forall k :: 0 <= k <= w ==> line[6 + k..6 + w] == cell[k..]) &&
            line[6 + w..8 + w] == "` " &&
            line[8 + w..] == formattedTitle
  {
    var line, w := "`Page " + cell + "` " + formattedTitle, |cell|;
    forall k | 0 <= k <= w
      ensures line[6 + k..6 + w] == cell[k..]
    {
      assert |line[6 + k..6 + w]| == |cell[k..]|;
    }
  }

  // ---------------------------------------------------------------------------
  // get
  // ---------------------------------------------------------------------------

  /** The first loop of `get`: gives page `i` of `embeds` the footer for page `i` of `titles`. */
  method AddPageNumbers(embeds: seq<Embed>, titles: seq<string>) returns (r: seq<Embed>)
    requires |embeds| == |titles|
    ensures |r| == |embeds|
    ensures forall i :: 0 <= i < |embeds| ==> r[i] == embeds[i].(footer := Some(Footer(titles, i)))
  {
    var n := |embeds|;
    r := embeds;
    for i := 0 to n
      invariant |r| == n
      invariant forall k :: 0 <= k < i ==> r[k] == embeds[k].(footer := Some(Footer(titles, k)))
      invariant forall k :: i <= k < n ==> r[k] == embeds[k]
    {
      var footerInfo := [PageCounter(i, n)];
      if i > 0 {
        footerInfo := footerInfo + [PreviousLink(titles[i - 1])];
      }
      if i < n - 1 {
        footerInfo := footerInfo + [NextLink(titles[i + 1])];
      }
      assert footerInfo == FooterParts(titles, i);
      r := r[i := r[i].(footer := Some(Join(footerInfo, " | ")))];
    }
  }

  /** The first `i` lines of the table of contents. */
  function TocLinesUpTo(formattedTitles: seq<string>, i: nat): (lines: seq<string>)
    requires i <= |formattedTitles|
  {
    seq(i, k requires 0 <= k < i => TocLine(k, |formattedTitles|, formattedTitles[k]))
  }

  lemma TocLinesUpToStep(formattedTitles: seq<string>, i: nat)
    requires i < |formattedTitles|
    ensures TocLinesUpTo(formattedTitles, i + 1)
            == TocLinesUpTo(formattedTitles, i) + [TocLine(i, |formattedTitles|, formattedTitles[i])]
  {
  }

  /** `embeds` with the first `i` pages titled. */
  function TitledUpTo(embeds: seq<Embed>, formattedTitles: seq<string>, i: nat): seq<Embed>
    requires i <= |embeds| == |formattedTitles|
  {
    seq(|embeds|, k requires 0 <= k < |embeds| =>
      if k < i then embeds[k].(title := Some(MakeTitle(formattedTitles[k]))) else embeds[k])
  }

  lemma TitledUpToStep(embeds: seq<Embed>, formattedTitles: seq<string>, i: nat)
    requires i < |embeds| == |formattedTitles|
    ensures var r := TitledUpTo(embeds, formattedTitles, i);
            TitledUpTo(embeds, formattedTitles, i + 1) == r[i := r[i].(title := Some(MakeTitle(formattedTitles[i])))]
  {
  }

  /** The second loop of `get`: titles every page and collects the contents lines. */
  method AddTitles(embeds: seq<Embed>, formattedTitles: seq<string>) returns (r: seq<Embed>, contents: seq<string>)
    requires |embeds| == |formattedTitles|
    ensures |r| == |embeds|
    ensures forall i :: 0 <= i < |embeds| ==> r[i] == embeds[i].(title := Some(MakeTitle(formattedTitles[i])))
    ensures contents == TocLines(formattedTitles)
  {
    var n := |embeds|;
    r, contents := embeds, [];
    for i := 0 to n
      invariant r == TitledUpTo(embeds, formattedTitles, i)
      invariant contents == TocLinesUpTo(formattedTitles, i)
    {
      var formattedTitle := formattedTitles[i];
      var title := "Triggers Help - " + formattedTitle;
      assert title == MakeTitle(formattedTitle);
      TitledUpToStep(embeds, formattedTitles, i);
      r := r[i := r[i].(title := Some(title))];
      TocLinesUpToStep(formattedTitles, i);
      contents := contents + [TocLine(i, n, formattedTitle)];
    }
    assert contents == TocLines(formattedTitles);
  }

  /**
   * `get`: gives every page its footer and title, then adds the table of
   * contents to the first page; returns the embeds in page order.
   */
  method Get(infos: seq<EmbedInfo>) returns (embeds: seq<Embed>)
    requires |infos| > 0
    ensures |embeds| == |infos|
    ensures forall i :: 0 <= i < |infos| ==> embeds[i].footer == Some(Footer(Titles(infos), i))
    ensures forall i :: 0 <= i < |infos| ==> embeds[i].title == Some(MakeTitle(infos[i].formattedTitle))
    ensures embeds[0].fields == infos[0].embed.fields + [TocField(infos)]
    ensures forall i :: 0 < i < |infos| ==> embeds[i].fields == infos[i].embed.fields
  {
    var n := |infos|;
    var titles := Titles(infos);
    var original := seq(n, i requires 0 <= i < n => infos[i].embed);
    var numbered := AddPageNumbers(original, titles);
    var titled, contents := AddTitles(numbered, FormattedTitles(infos));
    var toc := Field("Table of Contents", Join(contents, "\n"), false);
    embeds := titled[0 := titled[0].(fields := titled[0].fields + [toc])];
    forall i | 0 <= i < n
      ensures embeds[i].footer == Some(Footer(titles, i))
      ensures embeds[i].title == Some(MakeTitle(infos[i].formattedTitle))
      ensures i > 0 ==> embeds[i].fields == infos[i].embed.fields
    {
      assert original[i] == infos[i].embed;
    }
    assert embeds[0].fields == infos[0].embed.fields + [TocField(infos)] by {
      assert original[0] == infos[0].embed;
    }
  }

  // ---------------------------------------------------------------------------
  // add_split_fields
  // ---------------------------------------------------------------------------

  /** The legacy layout's field for one entry: its first cell as a bullet, the other cells one per line. */
  function LegacyEntryField(entry: seq<string>): Field
    requires |entry| > 0
  {
    Field("- " + entry[0], Join(entry[1..], "\n"), false)
  }

  predicate AllNonEmpty(entries: seq<seq<string>>) {
    forall r :: 0 <= r < |entries| ==> |entries[r]| > 0
  }

  /** The fields the legacy layout adds: a bold title, then one field per entry. */
  function LegacyFields(legacyTitle: string, entries: seq<seq<string>>): seq<Field>
    requires AllNonEmpty(entries)
  {
    if entries == [] then [Field("", "**" + legacyTitle + "**", false)]
    else LegacyFields(legacyTitle, entries[..|entries| - 1]) + [LegacyEntryField(entries[|entries| - 1])]
  }

  /**
   * The legacy layout adds one title field and one field per entry, in order;
   * none of them is inline, and each entry's field is named after its first
   * cell.
   */
  lemma {:induction false} LegacyFieldsShape(legacyTitle: string, entries: seq<seq<string>>)
    requires AllNonEmpty(entries)
    ensures var fields := LegacyFields(legacyTitle, entries);
            |fields| == 1 + |entries| &&
            fields[0] == Field("", "**" + legacyTitle + "**", false) &&
            forall r :: 0 <= r < |entries| ==> fields[r + 1] == LegacyEntryField(entries[r])
  {
    if entries != [] {
      LegacyFieldsShape(legacyTitle, entries[..|entries| - 1]);
    }
  }

  /** An entry's value lists its remaining cells: splitting it on newlines gives them back. */
  lemma LegacyEntryCells(entry: seq<string>)
    requires |entry| > 1
    requires forall k :: 1 <= k < |entry| ==> '\n' !in entry[k]
    ensures Split(LegacyEntryField(entry).value, '\n') == entry[1..]
  {
    SplitJoin(entry[1..], '\n');
  }

  function Blanks(k: nat): (fields: seq<Field>)
    ensures |fields| == k && forall j :: 0 <= j < k ==> fields[j] == BlankField
  {
    seq(k, _ => BlankField)
  }

  function ValueCells(cells: seq<string>): (fields: seq<Field>)
    ensures |fields| == |cells| && forall j :: 0 <= j < |cells| ==> fields[j] == Field("", cells[j], true)
  {
    seq(|cells|, j requires 0 <= j < |cells| => Field("", cells[j], true))
  }

  function NameCells(names: seq<string>): (fields: seq<Field>)
    ensures |fields| == |names| && forall j :: 0 <= j < |names| ==> fields[j] == Field(names[j], "", true)
  {
    seq(|names|, j requires 0 <= j < |names| => Field(names[j], "", true))
  }

  /** The header row of the column layout: one inline field per column name, padded to three. */
  function HeaderRow(names: seq<string>): seq<Field>
    requires |names| <= 3
  {
    NameCells(names) + Blanks(3 - |names|)
  }

  /** One entry's row of the column layout: one inline field per cell, padded by `3 - columnCount` blanks. */
  function EntryRow(entry: seq<string>, columnCount: nat): seq<Field>
    requires columnCount <= 3
  {
    ValueCells(entry) + Blanks(3 - columnCount)
  }

  function EntryRows(entries: seq<seq<string>>, columnCount: nat): seq<Field>
    requires columnCount <= 3
  {
    if entries == [] then []
    else EntryRows(entries[..|entries| - 1], columnCount) + EntryRow(entries[|entries| - 1], columnCount)
  }

  /** The field at row `r`, column `c` of a three-column layout. */
  function Cell(fields: seq<Field>, r: nat, c: nat): Field
    requires c < 3 && 3 * r + c < |fields|
  {
    fields[3 * r + c]
  }

  predicate Rectangular(entries: seq<seq<string>>, columnCount: nat) {
    forall r :: 0 <= r < |entries| ==> |entries[r]| == columnCount
  }

  lemma HeaderRowAligned(names: seq<string>)
    requires |names| <= 3
    ensures |HeaderRow(names)| == 3
    ensures forall c :: 0 <= c < 3 ==> Cell(HeaderRow(names), 0, c) == if c < |names| then Field(names[c], "", true) else BlankField
  {
  }

  /**
   * When every entry has one cell per column, the entry rows form a grid of
   * three inline fields per entry: its cells in order, then blanks.
   */
  lemma {:induction false} EntryRowsAligned(entries: seq<seq<string>>, columnCount: nat)
    requires 1 <= columnCount <= 3 && Rectangular(entries, columnCount)
    ensures |EntryRows(entries, columnCount)| == 3 * |entries|
    ensures forall r, c :: 0 <= r < |entries| && 0 <= c < 3 ==>
              Cell(EntryRows(entries, columnCount), r, c) == if c < columnCount then Field("", entries[r][c], true) else BlankField
  {
    if entries != [] {
      var n := |entries|;
      var front := entries[..n - 1];
      EntryRowsAligned(front, columnCount);
      var rows, init := EntryRows(entries, columnCount), EntryRows(front, columnCount);
      var last := EntryRow(entries[n - 1], columnCount);
      assert rows == init + last;
      assert |last| == 3;
      forall r, c | 0 <= r < n && 0 <= c < 3
        ensures Cell(rows, r, c) == if c < columnCount then Field("", entries[r][c], true) else BlankField
      {
        if r < n - 1 {
          assert Cell(rows, r, c) == Cell(init, r, c);
          assert entries[r] == front[r];
        } else {
          assert Cell(rows, r, c) == last[c];
        }
      }
    }
  }

  /**
   * `add_split_fields`: adds the entries to `embed` as fields. The legacy
   * layout (the one in use) lists each entry as one field; the column layout
   * lays them out three inline fields to a row and refuses fewer than one or
   * more than three columns (None).
   */
  method AddSplitFields(embed: Embed, names: seq<string>, legacyTitle: string, entries: seq<seq<string>>, legacy: bool)
    returns (r: Option<Embed>)
    requires legacy ==> AllNonEmpty(entries)
    ensures legacy ==> r == Some(embed.(fields := embed.fields + LegacyFields(legacyTitle, entries)))
    ensures !legacy ==> (r.None? <==> !(1 <= |names| <= 3))
    ensures !legacy && r.Some? ==>
              r.value == embed.(fields := embed.fields + HeaderRow(names) + EntryRows(entries, |names|))
  {
    var fields := embed.fields;
    if legacy {
      fields := fields + [Field("", "**" + legacyTitle + "**", false)];
      for i := 0 to |entries|
        invariant fields == embed.fields + LegacyFields(legacyTitle, entries[..i])
      {
        assert entries[..i + 1][..i] == entries[..i];
        fields := fields + [Field("- " + entries[i][0], Join(entries[i][1..], "\n"), false)];
      }
      assert entries[..|entries|] == entries;
      return Some(embed.(fields := fields));
    }

    var columnCount := |names|;
    if !(1 <= columnCount <= 3) {
      return None;
    }

    fields := AddNameCells(fields, names);
    fields := AddBlanks(fields, 3 - columnCount);
    assert fields == embed.fields + HeaderRow(names);

    for i := 0 to |entries|
      invariant fields == embed.fields + HeaderRow(names) + EntryRows(entries[..i], columnCount)
    {
      var before := fields;
      fields := AddValueCells(fields, entries[i]);
      fields := AddBlanks(fields, 3 - columnCount);
      assert entries[..i + 1][..i] == entries[..i];
      assert fields == before + EntryRow(entries[i], columnCount);
    }
    assert entries[..|entries|] == entries;
    r := Some(embed.(fields := fields));
  }

  /** Adds one inline field per column name, the name as its name. */
  method AddNameCells(fields: seq<Field>, names: seq<string>) returns (r: seq<Field>)
    ensures r == fields + NameCells(names)
  {
    r := fields;
    for k := 0 to |names|
      invariant r == fields + NameCells(names[..k])
    {
      assert NameCells(names[..k + 1]) == NameCells(names[..k]) + [Field(names[k], "", true)];
      r := r + [Field(names[k], "", true)];
    }
    assert names[..|names|] == names;
  }

  /** Adds one inline field per cell, the cell as its value. */
  method AddValueCells(fields: seq<Field>, cells: seq<string>) returns (r: seq<Field>)
    ensures r == fields + ValueCells(cells)
  {
    r := fields;
    for k := 0 to |cells|
      invariant r == fields + ValueCells(cells[..k])
    {
      assert ValueCells(cells[..k + 1]) == ValueCells(cells[..k]) + [Field("", cells[k], true)];
      r := r + [Field("", cells[k], true)];
    }
    assert cells[..|cells|] == cells;
  }

  /** Adds `count` blank inline fields. */
  method AddBlanks(fields: seq<Field>, count: nat) returns (r: seq<Field>)
    ensures r == fields + Blanks(count)
  {
    r := fields;
    for k := 0 to count
      invariant r == fields + Blanks(k)
    {
      assert Blanks(k + 1) == Blanks(k) + [BlankField];
      r := r + [BlankField];
    }
  }
}
