/** The icon grid of a card's info layer: paste_icons_to_layer splits a card's
    cost string into rows on commas and pastes one item per digit or mapped
    icon code, right-aligned, one row under the other. The host's paste and
    anchor calls are modelled as appending a Placement to a sequence. */
module IconLayout {

  /** The keyword arguments of paste_icons_to_layer besides the image, the
      target layer and the card configuration. */
  datatype LayoutParams = LayoutParams(
    iconDir: string,
    iconSize: int,
    gridBorder: int,
    inset: int,
    projectHome: string)

  /** The defaults the plugin declares. */
  const Defaults := LayoutParams("images/dice-icons", 128, 8, 64, "card-face-builder")

  const RowSeparator := ','

  /** Icon codes and the file each one loads; any other non-digit is skipped. */
  const CodeToFile: map<char, string> := map[
    'o' := "4-orb_128.png",
    'c' := "5-crystal_128.png",
    'h' := "6-hat_128.png",
    's' := "1-staff_128.png"]

  predicate IsDigit(c: char) { '0' <= c <= '9' }

  /** A character the inner loop pastes something for. */
  predicate Pasteable(c: char) { IsDigit(c) || c in CodeToFile }

  /** What is pasted: a text item holding one digit, or an icon loaded from a
      file (the code, its file name, and the path actually loaded). */
  datatype Item = Text(digit: char) | Icon(code: char, file: string, path: string)

  /** One paste-and-anchor at offset (x, y) of the info layer. */
  datatype Placement = Placement(item: Item, x: int, y: int)

  // ---------------------------------------------------------------------
  // Rows: str.split(",")
  // ---------------------------------------------------------------------

  function CountChar(s: string, c: char): nat
  {
    if s == [] then 0
    else CountChar(s[..|s| - 1], c) + (if s[|s| - 1] == c then 1 else 0)
  }

  /** The comma-separated pieces of a cost string, in order. Like Python's
      split, there is one more piece than there are commas, so pieces may be
      empty and the empty string gives one empty row. */
  function SplitRows(cost: string): (rows: seq<string>)
    ensures |rows| == CountChar(cost, RowSeparator) + 1
  {
    if cost == [] then [[]]
    else
      var init := SplitRows(cost[..|cost| - 1]);
      var c := cost[|cost| - 1];
      if c == RowSeparator then init + [[]]
      else ExtendLast(init, [c])
  }

  /** No row contains a comma. */
  lemma {:induction false} SplitRowsCommaFree(cost: string)
    ensures forall i :: 0 <= i < |SplitRows(cost)| ==> RowSeparator !in SplitRows(cost)[i]
  {
    if cost != [] {
      var init := SplitRows(cost[..|cost| - 1]);
      SplitRowsCommaFree(cost[..|cost| - 1]);
      var c := cost[|cost| - 1];
      if c != RowSeparator {
        assert RowSeparator !in init[|init| - 1] + [c];
      }
    }
  }

  /** The inverse of SplitRows: the rows glued back together with commas. */
  function JoinRows(rows: seq<string>): string
  {
    if rows == [] then []
    else if |rows| == 1 then rows[0]
    else JoinRows(rows[..|rows| - 1]) + [RowSeparator] + rows[|rows| - 1]
  }

  lemma {:induction false} JoinSplitRows(cost: string)
    ensures JoinRows(SplitRows(cost)) == cost
  {
    if cost != [] {
      var s' := cost[..|cost| - 1];
      var c := cost[|cost| - 1];
      var init := SplitRows(s');
      JoinSplitRows(s');
      var k := |init| - 1;
      if c == RowSeparator {
        assert (init + [[]])[..|init|] == init;
      } else if k == 0 {
        assert init == [init[0]];
      } else {
        var rows := init[..k] + [init[k] + [c]];
        assert rows[..k] == init[..k];
        assert JoinRows(init) == JoinRows(init[..k]) + [RowSeparator] + init[k];
      }
      assert cost == s' + [c];
    }
  }

  /** Appending a comma starts a new, empty row. */
  lemma SplitRowsAppendSeparator(a: string)
    ensures SplitRows(a + [RowSeparator]) == SplitRows(a) + [[]]
  {
    var s := a + [RowSeparator];
    assert s[..|s| - 1] == a;
  }

  /** The rows with b appended to the last one. */
  function ExtendLast(rows: seq<string>, b: string): (r: seq<string>)
    requires |rows| > 0
    ensures |r| == |rows|
  {
    rows[..|rows| - 1] + [rows[|rows| - 1] + b]
  }

  lemma ExtendLastTwice(rows: seq<string>, b: string, b': string)
    requires |rows| > 0
    ensures ExtendLast(ExtendLast(rows, b), b') == ExtendLast(rows, b + b')
  {
    var k := |rows| - 1;
    assert ExtendLast(rows, b)[..k] == rows[..k];
    assert rows[k] + b + b' == rows[k] + (b + b');
  }

  /** Appending any other character extends the last row. */
  lemma SplitRowsAppendChar(a: string, c: char)
    requires c != RowSeparator
    ensures SplitRows(a + [c]) == ExtendLast(SplitRows(a), [c])
  {
    var s := a + [c];
    assert s[..|s| - 1] == a;
  }

  /** Appending comma-free text extends the last row. */
  lemma {:induction false} SplitRowsAppendPlain(a: string, b: string)
    requires RowSeparator !in b
    ensures SplitRows(a + b) == ExtendLast(SplitRows(a), b)
    decreases |b|
  {
    var ra := SplitRows(a);
    if b == [] {
      var k := |ra| - 1;
      assert a + b == a;
      assert ra[k] + b == ra[k];
      assert ra == ra[..k] + [ra[k]];
    } else {
      var c := b[0];
      var rest := b[1..];
      assert c != RowSeparator;
      assert RowSeparator !in rest;
      SplitRowsAppendChar(a, c);
      SplitRowsAppendPlain(a + [c], rest);
      assert a + b == (a + [c]) + rest;
      ExtendLastTwice(ra, [c], rest);
      assert [c] + rest == b;
    }
  }

  /** A comma and comma-free text after a cost start one more row holding
      that text. */
  lemma SplitRowsAppendRow(a: string, last: string)
    requires RowSeparator !in last
    ensures SplitRows(a + [RowSeparator] + last) == SplitRows(a) + [last]
  {
    var ra := SplitRows(a);
    SplitRowsAppendSeparator(a);
    SplitRowsAppendPlain(a + [RowSeparator], last);
    var rs := ra + [[]];
    assert ExtendLast(rs, last) == ra + [last] by {
      assert rs[..|rs| - 1] == ra;
      assert rs[|rs| - 1] + last == last;
    }
  }

  lemma {:induction false} SplitJoinRows(rows: seq<string>)
    requires |rows| > 0
    requires forall i :: 0 <= i < |rows| ==> RowSeparator !in rows[i]
    ensures SplitRows(JoinRows(rows)) == rows
  {
    var k := |rows| - 1;
    if k == 0 {
      SplitRowsAppendPlain([], rows[0]);
      assert [] + rows[0] == rows[0];
      assert SplitRows([]) == [[]];
      assert ExtendLast([[]], rows[0]) == [rows[0]];
    } else {
      SplitJoinRows(rows[..k]);
      SplitRowsAppendRow(JoinRows(rows[..k]), rows[k]);
      assert rows == rows[..k] + [rows[k]];
    }
  }

  // ---------------------------------------------------------------------
  // Offsets
  // ---------------------------------------------------------------------

  /** Distance between the origins of two neighbouring grid cells. */
  function Step(p: LayoutParams): int { p.iconSize + p.gridBorder }

  /** x_pos of a row of n characters: a span of n cells, borders between
      them, that ends inset pixels from the right edge. */
  function XPos(imgWidth: int, p: LayoutParams, n: nat): (x: int)
    ensures x + n * Step(p) - p.gridBorder == imgWidth - p.inset
  {
    imgWidth - (p.inset + n * Step(p) - p.gridBorder)
  }

  /** y_pos of row idx: the first row sits inset pixels from the top and
      every further row one cell step lower. */
  function YPos(p: LayoutParams, idx: nat): (y: int)
    ensures idx == 0 ==> y == p.inset
    ensures idx > 0 ==> y == YPos(p, idx - 1) + Step(p)
  {
    p.inset + idx * Step(p)
  }

  // ---------------------------------------------------------------------
  // Icon paths: os.path.join
  // ---------------------------------------------------------------------

  /** Two-argument os.path.join on POSIX paths. */
  function JoinPath(a: string, b: string): string
  {
    if |b| > 0 && b[0] == '/' then b
    else if a == [] || a[|a| - 1] == '/' then a + b
    else a + "/" + b
  }

  /** What os.path.join promises: the second part ends the result; unless
      it is absolute, the first part starts it; and when the first part is
      non-empty and has no trailing slash, exactly one slash separates them. */
  lemma JoinPathParts(a: string, b: string)
    ensures var r := JoinPath(a, b);
      && |b| <= |r| && r[|r| - |b|..] == b
      && (!(|b| > 0 && b[0] == '/') ==> |a| <= |r| && r[..|a|] == a)
      && (!(|b| > 0 && b[0] == '/') && a != [] && a[|a| - 1] != '/' ==>
            |r| == |a| + 1 + |b| && r[|a|] == '/')
  {
  }

  /** The starting value of icon_path: project_home joined with icon_dir. */
  function IconDirPath(p: LayoutParams): string
  {
    JoinPath(p.projectHome, p.iconDir)
  }

  /** icon_path after the icons with the given files were loaded, as the
      loop computes it: each file joined onto the previous icon_path. */
  function AccumulatedPath(base: string, files: seq<string>): string
  {
    if files == [] then base
    else JoinPath(AccumulatedPath(base, files[..|files| - 1]), files[|files| - 1])
  }

  /** A plain relative file name: non-empty, with no slash at either end. */
  predicate PlainName(f: string)
  {
    f != [] && f[0] != '/' && f[|f| - 1] != '/'
  }

  /** Each file name prefixed with a slash, concatenated. */
  function SlashPrefixed(files: seq<string>): string
  {
    if files == [] then []
    else SlashPrefixed(files[..|files| - 1]) + "/" + files[|files| - 1]
  }

  /** Joining a plain name onto a path that does not end in a slash puts
      exactly one slash between them. */
  lemma JoinPlainName(prev: string, f: string)
    requires prev != [] && prev[|prev| - 1] != '/'
    requires PlainName(f)
    ensures JoinPath(prev, f) == prev + "/" + f
  {
  }

  lemma PrefixedEndsPlain(base: string, files: seq<string>)
    requires PlainName(base)
    requires forall i :: 0 <= i < |files| ==> PlainName(files[i])
    ensures var s := base + SlashPrefixed(files); s != [] && s[|s| - 1] != '/'
  {
    if files != [] {
      var k := |files| - 1;
      var f := files[k];
      assert PlainName(f);
      var s := base + SlashPrefixed(files);
      assert s == (base + SlashPrefixed(files[..k]) + "/") + f;
      assert s[|s| - 1] == f[|f| - 1];
    }
  }

  /** After k icons, icon_path is the icon directory with k file-name
      components appended, one per icon, in order. */
  lemma {:induction false} AccumulatedPathAppendsComponents(base: string, files: seq<string>)
    requires PlainName(base)
    requires forall i :: 0 <= i < |files| ==> PlainName(files[i])
    ensures AccumulatedPath(base, files) == base + SlashPrefixed(files)
  {
    if files != [] {
      var k := |files| - 1;
      var f := files[k];
      AccumulatedPathAppendsComponents(base, files[..k]);
      var prev := base + SlashPrefixed(files[..k]);
      PrefixedEndsPlain(base, files[..k]);
      JoinPlainName(prev, f);
      assert AccumulatedPath(base, files) == JoinPath(prev, f);
      assert prev + "/" + f == base + (SlashPrefixed(files[..k]) + "/" + f);
    }
  }

  lemma MappedFilesArePlain()
    ensures forall c :: c in CodeToFile ==> PlainName(CodeToFile[c])
  {
    forall c | c in CodeToFile
      ensures PlainName(CodeToFile[c])
    {
      assert c == 'o' || c == 'c' || c == 'h' || c == 's';
    }
  }

  // ---------------------------------------------------------------------
  // The paste loop, as specification functions
  // ---------------------------------------------------------------------

  /** The loop's variables: icon_path, and the pastes made so far. */
  datatype PasteState = PasteState(iconPath: string, pasted: seq<Placement>)

  /** One turn of the inner loop: character c of a row whose offset is (x, y). */
  function PasteChar(c: char, x: int, y: int, st: PasteState): (r: PasteState)
    ensures !Pasteable(c) ==> r == st
    ensures Pasteable(c) ==>
      && |r.pasted| == |st.pasted| + 1
      && st.pasted <= r.pasted
      && SlotOf(r.pasted[|st.pasted|]) == Slot(c, x, y)
      && ItemMatchesCode(r.pasted[|st.pasted|].item)
    ensures r.iconPath == if Pasteable(c) && r.pasted[|st.pasted|].item.Icon?
      then JoinPath(st.iconPath, CodeToFile[c]) else st.iconPath
  {
    if IsDigit(c) then
      PasteState(st.iconPath, st.pasted + [Placement(Text(c), x, y)])
    else if c !in CodeToFile then
      st
    else
      var path := JoinPath(st.iconPath, CodeToFile[c]);
      PasteState(path, st.pasted + [Placement(Icon(c, CodeToFile[c], path), x, y)])
  }

  /** The inner loop over a row: every character at the row's one offset. */
  function PasteRow(row: string, x: int, y: int, st: PasteState): PasteState
  {
    if row == [] then st
    else PasteChar(row[|row| - 1], x, y, PasteRow(row[..|row| - 1], x, y, st))
  }

  /** The outer loop over rows: row k at x_pos of its full length, y_pos of k. */
  function PasteRows(rows: seq<string>, imgWidth: int, p: LayoutParams, st: PasteState): PasteState
  {
    if rows == [] then st
    else
      var k := |rows| - 1;
      PasteRow(rows[k], XPos(imgWidth, p, |rows[k]|), YPos(p, k),
               PasteRows(rows[..k], imgWidth, p, st))
  }

  /** One more row of the outer loop. */
  lemma PasteRowsStep(rows: seq<string>, idx: nat, imgWidth: int, p: LayoutParams, st: PasteState)
    requires idx < |rows|
    ensures PasteRows(rows[..idx + 1], imgWidth, p, st)
         == PasteRow(rows[idx], XPos(imgWidth, p, |rows[idx]|), YPos(p, idx), PasteRows(rows[..idx], imgWidth, p, st))
  {
    assert rows[..idx + 1][..idx] == rows[..idx];
  }

  /** Everything paste_icons_to_layer does for a cost string. */
  function Layout(cost: string, imgWidth: int, p: LayoutParams): PasteState
  {
    PasteRows(SplitRows(cost), imgWidth, p, PasteState(IconDirPath(p), []))
  }

  // ---------------------------------------------------------------------
  // The reference grid: what is pasted where, without the paths
  // ---------------------------------------------------------------------

  /** A paste seen from outside: the character it stands for and its offset. */
  datatype Slot = Slot(code: char, x: int, y: int)

  function SourceChar(it: Item): char
  {
    match it
    case Text(d) => d
    case Icon(c, _, _) => c
  }

  function SlotOf(pl: Placement): Slot
  {
    Slot(SourceChar(pl.item), pl.x, pl.y)
  }

  function Slots(pls: seq<Placement>): (r: seq<Slot>)
  {
    seq(|pls|, i requires 0 <= i < |pls| => SlotOf(pls[i]))
  }

  function Codes(slots: seq<Slot>): string
  {
    seq(|slots|, i requires 0 <= i < |slots| => slots[i].code)
  }

  /** The pasteable characters of s, in order. */
  function Pasteables(s: string): string
  {
    if s == [] then []
    else Pasteables(s[..|s| - 1]) + (if Pasteable(s[|s| - 1]) then [s[|s| - 1]] else [])
  }

  /** One slot per pasteable character of a row, all at the row's offset. */
  function RowSlots(row: string, x: int, y: int): (r: seq<Slot>)
    ensures forall i :: 0 <= i < |r| ==> r[i].x == x && r[i].y == y && Pasteable(r[i].code)
    ensures Codes(r) == Pasteables(row)
  {
    if row == [] then []
    else
      var c := row[|row| - 1];
      RowSlots(row[..|row| - 1], x, y) + (if Pasteable(c) then [Slot(c, x, y)] else [])
  }

  /** The grid in row-major order: row k's slots at x_pos of row k's full
      length (skipped characters included) and y_pos of k (empty rows
      included). */
  function GridSlots(rows: seq<string>, imgWidth: int, p: LayoutParams): seq<Slot>
  {
    if rows == [] then []
    else
      var k := |rows| - 1;
      GridSlots(rows[..k], imgWidth, p) + RowSlots(rows[k], XPos(imgWidth, p, |rows[k]|), YPos(p, k))
  }

  lemma PasteableAppend(a: string, b: string)
    ensures Pasteables(a + b) == Pasteables(a) + Pasteables(b)
    decreases |b|
  {
    if b != [] {
      var b' := b[..|b| - 1];
      assert (a + b)[..|a + b| - 1] == a + b';
      PasteableAppend(a, b');
    } else {
      assert a + b == a;
    }
  }

  lemma SeparatorNotPasteable()
    ensures Pasteables([RowSeparator]) == []
  {
    assert !Pasteable(RowSeparator);
    assert [RowSeparator][..0] == [];
  }

  /** The pasteable characters of the joined rows are those of the rows
      before the last followed by those of the last: the comma between
      them is not pasteable. */
  lemma PasteablesJoinLast(rows: seq<string>)
    requires |rows| > 1
    ensures Pasteables(JoinRows(rows))
         == Pasteables(JoinRows(rows[..|rows| - 1])) + Pasteables(rows[|rows| - 1])
  {
    var k := |rows| - 1;
    var j := JoinRows(rows[..k]);
    var sep: string := [RowSeparator];
    assert JoinRows(rows) == (j + sep) + rows[k];
    PasteableAppend(j + sep, rows[k]);
    PasteableAppend(j, sep);
    SeparatorNotPasteable();
    assert Pasteables(j) + [] == Pasteables(j);
  }

  lemma {:induction false} GridSlotsCodes(rows: seq<string>, imgWidth: int, p: LayoutParams)
    ensures Codes(GridSlots(rows, imgWidth, p)) == Pasteables(JoinRows(rows))
  {
    if rows != [] {
      var k := |rows| - 1;
      var g := GridSlots(rows[..k], imgWidth, p);
      var r := RowSlots(rows[k], XPos(imgWidth, p, |rows[k]|), YPos(p, k));
      assert GridSlots(rows, imgWidth, p) == g + r;
      GridSlotsCodes(rows[..k], imgWidth, p);
      CodesAppend(g, r);
      if k > 0 {
        PasteablesJoinLast(rows);
      } else {
        assert JoinRows(rows) == rows[0];
        assert g == [];
      }
    }
  }

  /** An empty row pastes nothing but still takes a row index: the row
      after it is placed at the next index, one step below the empty one. */
  lemma EmptyRowTakesIndex(rows: seq<string>, row: string, imgWidth: int, p: LayoutParams)
    ensures GridSlots(rows + [[], row], imgWidth, p)
         == GridSlots(rows, imgWidth, p)
            + RowSlots(row, XPos(imgWidth, p, |row|), YPos(p, |rows|) + Step(p))
  {
    var all := rows + [[], row];
    var k := |rows| + 1;
    assert all[..k] == rows + [[]];
    assert all[k] == row;
    assert (rows + [[]])[..|rows|] == rows;
    assert GridSlots(rows + [[]], imgWidth, p) == GridSlots(rows, imgWidth, p);
    assert YPos(p, k) == YPos(p, |rows|) + Step(p);
  }

  // ---------------------------------------------------------------------
  // The layout against the reference grid
  // ---------------------------------------------------------------------

  lemma SlotsAppend(a: seq<Placement>, b: seq<Placement>)
    ensures Slots(a + b) == Slots(a) + Slots(b)
  {
  }

  lemma {:induction false} PasteRowSlots(row: string, x: int, y: int, st: PasteState)
    ensures Slots(PasteRow(row, x, y, st).pasted) == Slots(st.pasted) + RowSlots(row, x, y)
  {
    if row != [] {
      var c := row[|row| - 1];
      var mid := PasteRow(row[..|row| - 1], x, y, st);
      PasteRowSlots(row[..|row| - 1], x, y, st);
      if Pasteable(c) {
        SlotsAppend(mid.pasted, PasteChar(c, x, y, mid).pasted[|mid.pasted|..]);
        assert PasteChar(c, x, y, mid).pasted == mid.pasted + PasteChar(c, x, y, mid).pasted[|mid.pasted|..];
      }
    }
  }

  lemma {:induction false} PasteRowsSlots(rows: seq<string>, imgWidth: int, p: LayoutParams, st: PasteState)
    ensures Slots(PasteRows(rows, imgWidth, p, st).pasted) == Slots(st.pasted) + GridSlots(rows, imgWidth, p)
  {
    if rows != [] {
      var k := |rows| - 1;
      PasteRowsSlots(rows[..k], imgWidth, p, st);
      PasteRowSlots(rows[k], XPos(imgWidth, p, |rows[k]|), YPos(p, k), PasteRows(rows[..k], imgWidth, p, st));
    }
  }

  /** The pastes of a cost string are exactly the reference grid: one per
      pasteable character, row by row, each at its row's shared offset. */
  lemma LayoutMatchesGrid(cost: string, imgWidth: int, p: LayoutParams)
    ensures Slots(Layout(cost, imgWidth, p).pasted) == GridSlots(SplitRows(cost), imgWidth, p)
  {
    PasteRowsSlots(SplitRows(cost), imgWidth, p, PasteState(IconDirPath(p), []));
  }

  /** Reading the pastes in order gives back the digits and icon codes of
      the cost string in order, with every other character (commas
      included) dropped. */
  lemma LayoutCodes(cost: string, imgWidth: int, p: LayoutParams)
    ensures Codes(Slots(Layout(cost, imgWidth, p).pasted)) == Pasteables(cost)
    ensures |Layout(cost, imgWidth, p).pasted| == |Pasteables(cost)|
  {
    LayoutMatchesGrid(cost, imgWidth, p);
    GridSlotsCodes(SplitRows(cost), imgWidth, p);
    JoinSplitRows(cost);
  }

  // ---------------------------------------------------------------------
  // Items and icon paths
  // ---------------------------------------------------------------------

  /** A text item holds a digit; an icon item holds a mapped code and the
      file that code names. */
  predicate ItemMatchesCode(it: Item)
  {
    match it
    case Text(d) => IsDigit(d)
    case Icon(c, f, _) => c in CodeToFile && f == CodeToFile[c]
  }

  /** The icon files loaded, in order. */
  function IconFiles(pls: seq<Placement>): seq<string>
  {
    if pls == [] then []
    else
      var last := pls[|pls| - 1];
      IconFiles(pls[..|pls| - 1]) + (if last.item.Icon? then [last.item.file] else [])
  }

  /** Each icon was loaded from the icon_path accumulated up to and
      including its own turn. */
  ghost predicate PathsRecorded(base: string, pls: seq<Placement>)
  {
    pls == []
    || (var last := pls[|pls| - 1];
        && PathsRecorded(base, pls[..|pls| - 1])
        && (last.item.Icon? ==> last.item.path == AccumulatedPath(base, IconFiles(pls))))
  }

  /** PathsRecorded, stated placement by placement. */
  lemma {:induction false} PathsRecordedAt(base: string, pls: seq<Placement>)
    requires PathsRecorded(base, pls)
    ensures forall j :: 0 <= j < |pls| && pls[j].item.Icon? ==>
      pls[j].item.path == AccumulatedPath(base, IconFiles(pls[..j + 1]))
  {
    if pls != [] {
      var n := |pls| - 1;
      PathsRecordedAt(base, pls[..n]);
      forall j | 0 <= j < |pls| && pls[j].item.Icon?
        ensures pls[j].item.path == AccumulatedPath(base, IconFiles(pls[..j + 1]))
      {
        if j < n {
          assert pls[..n][..j + 1] == pls[..j + 1];
          assert pls[..n][j] == pls[j];
        } else {
          assert pls[..j + 1] == pls;
        }
      }
    }
  }

  /** What the loop keeps true: items match their codes, icon_path is the
      accumulation of every icon file so far, and each icon was loaded from
      the accumulated path at its own turn. */
  ghost predicate Consistent(base: string, st: PasteState)
  {
    && (forall j :: 0 <= j < |st.pasted| ==> ItemMatchesCode(st.pasted[j].item))
    && st.iconPath == AccumulatedPath(base, IconFiles(st.pasted))
    && PathsRecorded(base, st.pasted)
  }

  lemma IconFilesAppend(a: seq<Placement>, e: Placement)
    ensures IconFiles(a + [e]) == IconFiles(a) + (if e.item.Icon? then [e.item.file] else [])
  {
    assert (a + [e])[..|a|] == a;
  }

  lemma AccumulatedPathAppend(base: string, files: seq<string>, f: string)
    ensures AccumulatedPath(base, files + [f]) == JoinPath(AccumulatedPath(base, files), f)
  {
    assert (files + [f])[..|files|] == files;
  }

  lemma AppendKeepsMatches(a: seq<Placement>, e: Placement)
    requires forall j :: 0 <= j < |a| ==> ItemMatchesCode(a[j].item)
    requires ItemMatchesCode(e.item)
    ensures forall j :: 0 <= j < |a + [e]| ==> ItemMatchesCode((a + [e])[j].item)
  {
  }

  /** One more placement keeps the state consistent when its item matches
      its code and an icon's path is the old icon_path joined with its file. */
  lemma AppendConsistent(base: string, st: PasteState, e: Placement, path: string)
    requires Consistent(base, st)
    requires ItemMatchesCode(e.item)
    requires path == if e.item.Icon? then JoinPath(st.iconPath, e.item.file) else st.iconPath
    requires e.item.Icon? ==> e.item.path == path
    ensures Consistent(base, PasteState(path, st.pasted + [e]))
  {
    var pls := st.pasted + [e];
    AppendKeepsMatches(st.pasted, e);
    IconFilesAppend(st.pasted, e);
    var files := IconFiles(st.pasted);
    if e.item.Icon? {
      AccumulatedPathAppend(base, files, e.item.file);
    } else {
      assert files + [] == files;
    }
    assert pls[..|pls| - 1] == st.pasted;
  }

  lemma PasteCharConsistent(base: string, c: char, x: int, y: int, st: PasteState)
    requires Consistent(base, st)
    ensures Consistent(base, PasteChar(c, x, y, st))
  {
    if IsDigit(c) {
      AppendConsistent(base, st, Placement(Text(c), x, y), st.iconPath);
    } else if c in CodeToFile {
      var path := JoinPath(st.iconPath, CodeToFile[c]);
      AppendConsistent(base, st, Placement(Icon(c, CodeToFile[c], path), x, y), path);
    }
  }

  lemma {:induction false} PasteRowConsistent(base: string, row: string, x: int, y: int, st: PasteState)
    requires Consistent(base, st)
    ensures Consistent(base, PasteRow(row, x, y, st))
  {
    if row != [] {
      PasteRowConsistent(base, row[..|row| - 1], x, y, st);
      PasteCharConsistent(base, row[|row| - 1], x, y, PasteRow(row[..|row| - 1], x, y, st));
    }
  }

  lemma {:induction false} PasteRowsConsistent(base: string, rows: seq<string>, imgWidth: int, p: LayoutParams, st: PasteState)
    requires Consistent(base, st)
    ensures Consistent(base, PasteRows(rows, imgWidth, p, st))
  {
    if rows != [] {
      var k := |rows| - 1;
      PasteRowsConsistent(base, rows[..k], imgWidth, p, st);
      PasteRowConsistent(base, rows[k], XPos(imgWidth, p, |rows[k]|), YPos(p, k), PasteRows(rows[..k], imgWidth, p, st));
    }
  }

  /** A digit becomes a text item of that digit, a mapped code the icon its
      file names, and the i-th icon is loaded from the icon directory with
      the files of icons 1..i appended (the re-joined icon_path). */
  lemma LayoutItems(cost: string, imgWidth: int, p: LayoutParams)
    ensures var pls := Layout(cost, imgWidth, p).pasted;
      && (forall j :: 0 <= j < |pls| ==> ItemMatchesCode(pls[j].item))
      && (forall j :: 0 <= j < |pls| && pls[j].item.Icon? ==>
            pls[j].item.path == AccumulatedPath(IconDirPath(p), IconFiles(pls[..j + 1])))
  {
    var st := PasteRows(SplitRows(cost), imgWidth, p, PasteState(IconDirPath(p), []));
    PasteRowsConsistent(IconDirPath(p), SplitRows(cost), imgWidth, p, PasteState(IconDirPath(p), []));
    PathsRecordedAt(IconDirPath(p), st.pasted);
  }

  // ---------------------------------------------------------------------
  // paste_icons_to_layer
  // ---------------------------------------------------------------------

  /** The inner loop of paste_icons_to_layer over one row at offset
      (xPos, yPos); each appended Placement stands for one edit_paste,
      set_offsets and floating_sel_anchor. */
  method PasteRowCodes(rowCode: string, xPos: int, yPos: int, iconPath0: string, pasted0: seq<Placement>)
    returns (iconPath: string, pasted: seq<Placement>)
    ensures PasteState(iconPath, pasted) == PasteRow(rowCode, xPos, yPos, PasteState(iconPath0, pasted0))
  {
    iconPath, pasted := iconPath0, pasted0;
    for iconColIdx := 0 to |rowCode|
      invariant PasteState(iconPath, pasted) == PasteRow(rowCode[..iconColIdx], xPos, yPos, PasteState(iconPath0, pasted0))
    {
      var code := rowCode[iconColIdx];
      if IsDigit(code) {
        pasted := pasted + [Placement(Text(code), xPos, yPos)];
      } else if code in CodeToFile {
        iconPath := JoinPath(iconPath, CodeToFile[code]);
        pasted := pasted + [Placement(Icon(code, CodeToFile[code], iconPath), xPos, yPos)];
      }
      // any other character is skipped
      assert rowCode[..iconColIdx + 1][..iconColIdx] == rowCode[..iconColIdx];
    }
    assert rowCode[..|rowCode|] == rowCode;
  }

  /** paste_icons_to_layer: the outer loop over the rows of the cost. */
  method PasteIconsToLayer(cost: string, imgWidth: int, p: LayoutParams) returns (pasted: seq<Placement>)
    ensures pasted == Layout(cost, imgWidth, p).pasted
    ensures Slots(pasted) == GridSlots(SplitRows(cost), imgWidth, p)
    ensures Codes(Slots(pasted)) == Pasteables(cost)
  {
    var iconPath := IconDirPath(p);
    var rowCodes := SplitRows(cost);
    pasted := [];
    for idx := 0 to |rowCodes|
      invariant PasteState(iconPath, pasted) == PasteRows(rowCodes[..idx], imgWidth, p, PasteState(IconDirPath(p), []))
    {
      var rowCode := rowCodes[idx];
      var xPos := XPos(imgWidth, p, |rowCode|);
      var yPos := YPos(p, idx);
      PasteRowsStep(rowCodes, idx, imgWidth, p, PasteState(IconDirPath(p), []));
      iconPath, pasted := PasteRowCodes(rowCode, xPos, yPos, iconPath, pasted);
    }
    assert rowCodes[..|rowCodes|] == rowCodes;
    assert pasted == Layout(cost, imgWidth, p).pasted;
    LayoutCodes(cost, imgWidth, p);
    LayoutMatchesGrid(cost, imgWidth, p);
  }

  // ---------------------------------------------------------------------
  // What the loop evidently meant, and the two places it departs from it
  // ---------------------------------------------------------------------

  /** A two-character cost without a comma is a single row. */
  lemma SplitTwoChars(c: char, d: char)
    requires c != RowSeparator && d != RowSeparator
    ensures SplitRows([c, d]) == [[c, d]]
  {
    SplitRowsAppendPlain([], [c, d]);
    assert [] + [c, d] == [c, d];
    assert SplitRows([]) == [[]];
  }

  lemma OrbPaths()
    ensures IconDirPath(Defaults) == "card-face-builder" + "/" + "images/dice-icons"
    ensures JoinPath(IconDirPath(Defaults), "4-orb_128.png") == IconDirPath(Defaults) + "/4-orb_128.png"
    ensures JoinPath(IconDirPath(Defaults) + "/4-orb_128.png", "4-orb_128.png")
         == IconDirPath(Defaults) + "/4-orb_128.png/4-orb_128.png"
  {
    var d := IconDirPath(Defaults);
    var f := "4-orb_128.png";
    assert d[|d| - 1] == 's';
    assert f[0] == '4';
    assert d + "/" + f == d + "/4-orb_128.png";
    var d1 := d + "/4-orb_128.png";
    assert d1[|d1| - 1] == 'g';
    assert d1 + "/" + f == d + "/4-orb_128.png/4-orb_128.png";
  }

  lemma PasteRowTwo(c: char, d: char, x: int, y: int, st: PasteState)
    ensures PasteRow([c, d], x, y, st) == PasteChar(d, x, y, PasteChar(c, x, y, st))
  {
    assert [c, d][..1] == [c] && [c, d][1] == d;
    assert [c][..0] == [] && [c][0] == c;
    assert PasteRow([c], x, y, st) == PasteChar(c, x, y, st);
  }

  lemma PasteDigit(c: char, x: int, y: int, st: PasteState)
    requires IsDigit(c)
    ensures PasteChar(c, x, y, st) == PasteState(st.iconPath, st.pasted + [Placement(Text(c), x, y)])
  {
  }

  lemma PasteOrb(x: int, y: int, st: PasteState)
    ensures var path := JoinPath(st.iconPath, "4-orb_128.png");
      PasteChar('o', x, y, st)
        == PasteState(path, st.pasted + [Placement(Icon('o', "4-orb_128.png", path), x, y)])
  {
    assert !IsDigit('o');
    assert 'o' in CodeToFile && CodeToFile['o'] == "4-orb_128.png";
  }

  /** A single row is pasted by one pass of the inner loop, at x_pos of its
      length and y_pos of row 0. */
  lemma SingleRowPaste(row: string, imgWidth: int, p: LayoutParams, st: PasteState)
    ensures PasteRows([row], imgWidth, p, st) == PasteRow(row, XPos(imgWidth, p, |row|), YPos(p, 0), st)
  {
    assert [row][..0] == [];
  }

  /** The pastes the code makes for the row "1o" with the defaults and an
      image 1000 pixels wide: the digit as text and one orb icon, loaded from
      the icon directory. */
  lemma TextAndOrbLayout()
    ensures Layout("1o", 1000, Defaults).pasted == [
      Placement(Text('1'), 672, 64),
      Placement(Icon('o', "4-orb_128.png", IconDirPath(Defaults) + "/4-orb_128.png"), 672, 64)]
  {
    SplitTwoChars('1', 'o');
    OrbPaths();
    var dir := IconDirPath(Defaults);
    var st0 := PasteState(dir, []);
    SingleRowPaste("1o", 1000, Defaults, st0);
    assert Layout("1o", 1000, Defaults) == PasteRows(["1o"], 1000, Defaults, st0);
    assert XPos(1000, Defaults, 2) == 672 && YPos(Defaults, 0) == 64;
    PasteRowTwo('1', 'o', 672, 64, st0);
    PasteDigit('1', 672, 64, st0);
    var st1 := PasteState(dir, [Placement(Text('1'), 672, 64)]);
    PasteOrb(672, 64, st1);
  }

  /** The pastes the code makes for the row "oo" with the defaults and an
      image 1000 pixels wide, had both loads succeeded: the second icon is
      requested from a path under the first icon's file. */
  lemma DoubleOrbLayout()
    ensures Layout("oo", 1000, Defaults).pasted == [
      Placement(Icon('o', "4-orb_128.png", IconDirPath(Defaults) + "/4-orb_128.png"), 672, 64),
      Placement(Icon('o', "4-orb_128.png", IconDirPath(Defaults) + "/4-orb_128.png/4-orb_128.png"), 672, 64)]
  {
    SplitTwoChars('o', 'o');
    OrbPaths();
    var dir := IconDirPath(Defaults);
    var st0 := PasteState(dir, []);
    SingleRowPaste("oo", 1000, Defaults, st0);
    assert Layout("oo", 1000, Defaults) == PasteRows(["oo"], 1000, Defaults, st0);
    assert XPos(1000, Defaults, 2) == 672 && YPos(Defaults, 0) == 64;
    PasteRowTwo('o', 'o', 672, 64, st0);
    PasteOrb(672, 64, st0);
    var p1 := dir + "/4-orb_128.png";
    var st1 := PasteState(p1, [Placement(Icon('o', "4-orb_128.png", p1), 672, 64)]);
    assert PasteChar('o', 672, 64, st0) == st1;
    PasteOrb(672, 64, st1);
    var p2 := dir + "/4-orb_128.png/4-orb_128.png";
    assert PasteChar('o', 672, 64, st1).pasted == st1.pasted + [Placement(Icon('o', "4-orb_128.png", p2), 672, 64)];
  }

  /** As written, the two items of the row "1o", the digit and the orb,
      are pasted at one and the same offset, so the icon covers the digit.
      Only one icon file is loaded, so this does not depend on the nested
      path below. */
  lemma RowItemsOverlap()
    ensures var pls := Layout("1o", 1000, Defaults).pasted;
      |pls| == 2 && pls[0].x == pls[1].x && pls[0].y == pls[1].y
  {
    TextAndOrbLayout();
  }

  /** As written, icon_path is re-joined onto its previous value, so the
      second icon of "oo" is requested from a path nested under the first
      icon's file: no such file can exist. */
  lemma SecondIconPathNested()
    ensures var pls := Layout("oo", 1000, Defaults).pasted;
      |pls| == 2 && pls[1].item.Icon?
      && pls[1].item.path == IconDirPath(Defaults) + "/4-orb_128.png/4-orb_128.png"
  {
    DoubleOrbLayout();
  }

  /** The item the loop means for a pasteable character: the icon is loaded
      from the icon directory joined with its own file name. */
  function IntendedItem(c: char, dir: string): (it: Item)
    requires Pasteable(c)
    ensures ItemMatchesCode(it) && SourceChar(it) == c
    ensures it.Icon? ==> it.path == JoinPath(dir, it.file)
  {
    if IsDigit(c) then Text(c) else Icon(c, CodeToFile[c], JoinPath(dir, CodeToFile[c]))
  }

  /** A row as the loop means it: character col at x0 + col * step. */
  function IntendedRow(row: string, x0: int, y: int, dir: string, step: int): (r: seq<Placement>)
    ensures forall i :: 0 <= i < |r| ==> r[i].y == y && ItemMatchesCode(r[i].item)
    ensures forall i :: 0 <= i < |r| && r[i].item.Icon? ==> r[i].item.path == JoinPath(dir, r[i].item.file)
  {
    if row == [] then []
    else
      var c := row[|row| - 1];
      IntendedRow(row[..|row| - 1], x0, y, dir, step)
        + (if Pasteable(c) then [Placement(IntendedItem(c, dir), x0 + (|row| - 1) * step, y)] else [])
  }

  /** The whole grid as the loop means it: rows at the same y_pos and x_pos
      as written, characters spread across the row's cells, and every icon
      loaded from the icon directory. */
  function IntendedGrid(rows: seq<string>, imgWidth: int, p: LayoutParams): (r: seq<Placement>)
    ensures forall i :: 0 <= i < |r| ==> ItemMatchesCode(r[i].item)
    ensures forall i :: 0 <= i < |r| && r[i].item.Icon? ==> r[i].item.path == JoinPath(IconDirPath(p), r[i].item.file)
  {
    if rows == [] then []
    else
      var k := |rows| - 1;
      IntendedGrid(rows[..k], imgWidth, p)
        + IntendedRow(rows[k], XPos(imgWidth, p, |rows[k]|), YPos(p, k), IconDirPath(p), Step(p))
  }

  lemma {:induction false} IntendedRowCells(row: string, x0: int, y: int, dir: string, step: int)
    requires step >= 0
    ensures forall i :: 0 <= i < |IntendedRow(row, x0, y, dir, step)| ==>
      x0 <= IntendedRow(row, x0, y, dir, step)[i].x
      && IntendedRow(row, x0, y, dir, step)[i].x + step <= x0 + |row| * step
    ensures forall i, j :: 0 <= i < j < |IntendedRow(row, x0, y, dir, step)| ==>
      IntendedRow(row, x0, y, dir, step)[i].x + step <= IntendedRow(row, x0, y, dir, step)[j].x
  {
    if row != [] {
      var m := |row| - 1;
      IntendedRowCells(row[..m], x0, y, dir, step);
      var a := IntendedRow(row[..m], x0, y, dir, step);
      var r := IntendedRow(row, x0, y, dir, step);
      assert |row[..m]| == m;
      assert 0 <= m * step;
      assert (m + 1) * step == m * step + step;
      forall i | 0 <= i < |a|
        ensures x0 <= a[i].x && a[i].x + step <= x0 + m * step
      {
      }
      if Pasteable(row[m]) {
        assert r == a + [r[|a|]];
        assert r[|a|].x == x0 + m * step;
        forall i, j | 0 <= i < j < |r|
          ensures r[i].x + step <= r[j].x
        {
          if j < |a| {
            assert r[i] == a[i] && r[j] == a[j];
          } else {
            assert r[i] == a[i];
          }
        }
      } else {
        assert r == a;
      }
    }
  }

  /** Spread across its cells, a row fits between x_pos and inset pixels
      from the right edge, and no two of its items overlap. */
  lemma IntendedRowFitsSpan(row: string, imgWidth: int, p: LayoutParams, y: int)
    requires Step(p) >= 0
    ensures var x0 := XPos(imgWidth, p, |row|);
      var r := IntendedRow(row, x0, y, IconDirPath(p), Step(p));
      && (forall i :: 0 <= i < |r| ==> x0 <= r[i].x && r[i].x + p.iconSize <= imgWidth - p.inset)
      && (forall i, j :: 0 <= i < j < |r| ==> r[i].x + p.iconSize + p.gridBorder <= r[j].x)
  {
    IntendedRowCells(row, XPos(imgWidth, p, |row|), y, IconDirPath(p), Step(p));
  }

  /** Every icon of the intended grid is loaded from the icon directory
      plus its own file name, whatever was loaded before it. */
  lemma IntendedIconPaths(cost: string, imgWidth: int, p: LayoutParams)
    requires PlainName(IconDirPath(p))
    ensures forall i :: 0 <= i < |IntendedGrid(SplitRows(cost), imgWidth, p)| ==>
      var it := IntendedGrid(SplitRows(cost), imgWidth, p)[i].item;
      it.Icon? ==> it.path == IconDirPath(p) + "/" + CodeToFile[it.code]
  {
    MappedFilesArePlain();
  }

  lemma CodesOfSlotsAppend(a: seq<Placement>, b: seq<Placement>)
    ensures Codes(Slots(a + b)) == Codes(Slots(a)) + Codes(Slots(b))
  {
    SlotsAppend(a, b);
    CodesAppend(Slots(a), Slots(b));
  }

  lemma CodesAppend(a: seq<Slot>, b: seq<Slot>)
    ensures Codes(a + b) == Codes(a) + Codes(b)
  {
  }

  /** Only the offsets and paths change: the intended grid pastes the same
      characters in the same order as the code does. */
  lemma {:induction false} IntendedGridCodes(rows: seq<string>, imgWidth: int, p: LayoutParams)
    ensures Codes(Slots(IntendedGrid(rows, imgWidth, p))) == Codes(GridSlots(rows, imgWidth, p))
  {
    if rows != [] {
      var k := |rows| - 1;
      var x0 := XPos(imgWidth, p, |rows[k]|);
      var y := YPos(p, k);
      IntendedGridCodes(rows[..k], imgWidth, p);
      IntendedRowCodes(rows[k], x0, y, IconDirPath(p), Step(p));
      var a := IntendedGrid(rows[..k], imgWidth, p);
      var b := IntendedRow(rows[k], x0, y, IconDirPath(p), Step(p));
      assert IntendedGrid(rows, imgWidth, p) == a + b;
      CodesOfSlotsAppend(a, b);
      var g := GridSlots(rows[..k], imgWidth, p);
      var h := RowSlots(rows[k], x0, y);
      assert GridSlots(rows, imgWidth, p) == g + h;
      CodesAppend(g, h);
    }
  }

  lemma {:induction false} IntendedRowCodes(row: string, x0: int, y: int, dir: string, step: int)
    ensures Codes(Slots(IntendedRow(row, x0, y, dir, step))) == Pasteables(row)
  {
    if row != [] {
      var m := |row| - 1;
      IntendedRowCodes(row[..m], x0, y, dir, step);
      var a := IntendedRow(row[..m], x0, y, dir, step);
      var c := row[m];
      var b := if Pasteable(c) then [Placement(IntendedItem(c, dir), x0 + m * step, y)] else [];
      CodesOfSlotsAppend(a, b);
    }
  }
}
