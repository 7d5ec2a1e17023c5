/** retentionmap.go: which addresses are probed, how an answer is classed, and what the loader makes of it. */
module RetentionSweep {
  import opened Common
  import opened Text
  import opened RetentionText
  import opened AdaptiveUpload
  import opened RetentionProbes

  const MAP_START := 0x170000
  const MAP_END := 0x172390

  predicate Probed(a: int) { MAP_START <= a < MAP_END && a % 16 == 0 && !InZones(CLONE_REG_ZONES, a) }

  method RetentionMapAddrs() returns (addrs: seq<nat>)
    ensures forall a :: a in addrs <==> Probed(a)
    ensures forall i, j :: 0 <= i < j < |addrs| ==> addrs[i] < addrs[j]
  {
    addrs := [];
    var a := MAP_START;
    while a < MAP_END
      invariant MAP_START <= a <= MAP_END && a % 16 == 0
      invariant forall x :: x in addrs <==> x < a && Probed(x)
      invariant forall i :: 0 <= i < |addrs| ==> addrs[i] < a
      invariant forall i, j :: 0 <= i < j < |addrs| ==> addrs[i] < addrs[j]
      decreases MAP_END - a
    {
      var skip := false;
      var i := 0;
      while i < |CLONE_REG_ZONES|
        invariant i <= |CLONE_REG_ZONES| && !skip
        invariant forall k :: 0 <= k < i ==> !InZone(CLONE_REG_ZONES[k], a)
      {
        if a >= CLONE_REG_ZONES[i].start && a < CLONE_REG_ZONES[i].end {
          skip := true;
          break;
        }
        i := i + 1;
      }
      assert skip <==> InZones(CLONE_REG_ZONES, a);
      if !skip { addrs := addrs + [a]; }
      a := a + 16;
    }
  }

  /** The rows of a sweep from index `i` on; none if a write fails. */
  function RowsFrom(addrs: seq<nat>, answers: seq<Answer>, i: nat): Option<seq<Row>>
    requires |answers| == |addrs|
    decreases |addrs| - i
  {
    if i >= |addrs| then Some([])
    else if Wedges(answers[i]) then None
    else Prepended([Row(addrs[i], Classify(addrs[i], answers[i]))], RowsFrom(addrs, answers, i + 1))
  }

  function Prepended(first: seq<Row>, rest: Option<seq<Row>>): Option<seq<Row>> {
    if rest == None then None else Some(first + rest.value)
  }

  lemma PrependedTwice(a: seq<Row>, b: seq<Row>, rest: Option<seq<Row>>)
    ensures Prepended(a, Prepended(b, rest)) == Prepended(a + b, rest)
  {
    if rest.Some? { assert a + (b + rest.value) == a + b + rest.value; }
  }

  lemma PrependedNothing(rows: seq<Row>, rest: Option<seq<Row>>)
    ensures Prepended([], rest) == rest && Prepended(rows, Some([])) == Some(rows)
  {
    if rest.Some? { assert [] + rest.value == rest.value; }
    assert rows + [] == rows;
  }

  /** The body of the sweep's loop: the class of one address, or nothing if a write failed. */
  method Probe(a: nat, x: Answer) returns (class_: Option<string>)
    ensures class_ == if Wedges(x) then None else Some(Classify(a, x))
  {
    var wordOk, blkOk := true, true;
    if !x.wordWritten { return None; }
    if x.afterWord != Some(Pattern(a)) { wordOk := false; }
    if !x.blockWritten { return None; }
    if x.afterBlock != Some(BlockWord(a)) { blkOk := false; }
    class_ := Some(ClassName(wordOk, blkOk));
  }

  method Sweep(addrs: seq<nat>, answers: seq<Answer>, start: nat) returns (rows: Option<seq<Row>>)
    requires |answers| == |addrs|
    ensures rows == RowsFrom(addrs, answers, start)
  {
    var out: seq<Row> := [];
    var i := 0;
    PrependedNothing(out, RowsFrom(addrs, answers, start));
    while i < |addrs|
      invariant i <= |addrs|
      invariant Prepended(out, RowsFrom(addrs, answers, Max(i, start))) == RowsFrom(addrs, answers, start)
    {
      if i >= start {
        var class_ := Probe(addrs[i], answers[i]);
        if class_ == None { return None; }
        PrependedTwice(out, [Row(addrs[i], class_.value)], RowsFrom(addrs, answers, i + 1));
        out := out + [Row(addrs[i], class_.value)];
      }
      i := i + 1;
    }
    PrependedNothing(out, None);
    rows := Some(out);
  }

  /** A sweep yields one row for each address, in order, exactly when no write failed. */
  lemma {:induction false} RowsAre(addrs: seq<nat>, answers: seq<Answer>, i: nat)
    requires |answers| == |addrs| && i <= |addrs|
    ensures RowsFrom(addrs, answers, i).Some? <==> forall k :: i <= k < |addrs| ==> !Wedges(answers[k])
    ensures RowsFrom(addrs, answers, i).Some? ==>
              var rows := RowsFrom(addrs, answers, i).value;
              |rows| == |addrs| - i && forall k :: i <= k < |addrs| ==> rows[k - i] == Row(addrs[k], Classify(addrs[k], answers[k]))
    decreases |addrs| - i
  {
    if i < |addrs| { RowsAre(addrs, answers, i + 1); }
  }

  predicate Ascending(addrs: seq<nat>) {
    (forall i :: 0 <= i < |addrs| ==> addrs[i] < TWO_32) && forall i, j :: 0 <= i < j < |addrs| ==> addrs[i] < addrs[j]
  }

  /** The map the rows of a sweep describe. */
  lemma {:induction false} SweptMap(addrs: seq<nat>, answers: seq<Answer>, rows: seq<Row>)
    requires |answers| == |addrs| == |rows| && Ascending(addrs)
    requires forall k :: 0 <= k < |rows| ==> rows[k] == Row(addrs[k], Classify(addrs[k], answers[k]))
    ensures forall a :: a in AsMap(map[], rows) <==> a in addrs
    ensures forall i :: 0 <= i < |addrs| ==> addrs[i] in AsMap(map[], rows) && AsMap(map[], rows)[addrs[i]] == Classify(addrs[i], answers[i])
  {
    forall i, j | 0 <= i < j < |rows| ensures rows[i].addr != rows[j].addr { assert addrs[i] < addrs[j]; }
    AsMapDistinct(map[], rows);
    var m := AsMap(map[], rows);
    forall i | 0 <= i < |addrs| ensures addrs[i] in m && m[addrs[i]] == Classify(addrs[i], answers[i]) {
      assert rows[i].addr in m && m[rows[i].addr] == rows[i].name;
    }
    forall a ensures a in m <==> a in addrs {
      if a in m {
        var i :| 0 <= i < |rows| && rows[i].addr == a;
        assert addrs[i] == a;
      }
    }
  }

  /** The file a sweep from index `start` on prints, read back, gives every probed address the class the sweep saw. */
  lemma {:induction false} SweepReadsBack(addrs: seq<nat>, answers: seq<Answer>, start: nat)
    requires |answers| == |addrs| && Ascending(addrs) && start <= |addrs| && RowsFrom(addrs, answers, start).Some?
    ensures forall k :: 0 <= k < |RowsFrom(addrs, answers, start).value| ==> Printable(RowsFrom(addrs, answers, start).value[k])
    ensures var loaded := LoadLines(map[], Lines(Printed(RowsFrom(addrs, answers, start).value)));
            loaded.Loaded? && (forall a :: a in loaded.entries <==> a in addrs[start..]) &&
            forall i :: start <= i < |addrs| ==> addrs[i] in loaded.entries && loaded.entries[addrs[i]] == Classify(addrs[i], answers[i])
  {
    var rows := RowsFrom(addrs, answers, start).value;
    var left, answered := addrs[start..], answers[start..];
    RowsAre(addrs, answers, start);
    forall k | 0 <= k < |rows| ensures rows[k] == Row(left[k], Classify(left[k], answered[k])) {
      assert rows[(start + k) - start] == Row(addrs[start + k], Classify(addrs[start + k], answers[start + k]));
    }
    SweptMap(left, answered, rows);
    PrintedRowsReadBack(map[], rows);
    forall i | start <= i < |addrs| ensures left[i - start] == addrs[i] && answered[i - start] == answers[i] {
    }
  }

  lemma {:induction false} AsMapDistinct(m: map<nat, string>, rows: seq<Row>)
    requires forall i, j :: 0 <= i < j < |rows| ==> rows[i].addr != rows[j].addr
    requires forall i :: 0 <= i < |rows| ==> rows[i].addr !in m
    ensures forall i :: 0 <= i < |rows| ==> rows[i].addr in AsMap(m, rows) && AsMap(m, rows)[rows[i].addr] == rows[i].name
    ensures forall a :: a in m ==> a in AsMap(m, rows) && AsMap(m, rows)[a] == m[a]
    ensures forall a :: a in AsMap(m, rows) ==> a in m || exists i :: 0 <= i < |rows| && rows[i].addr == a
    decreases |rows|
  {
    if rows != [] {
      var next := m[rows[0].addr := rows[0].name];
      AsMapDistinct(next, rows[1..]);
      forall a | a in AsMap(m, rows) ensures a in m || exists i :: 0 <= i < |rows| && rows[i].addr == a {
        if a !in next {
          var i :| 0 <= i < |rows[1..]| && rows[1..][i].addr == a;
          assert rows[i + 1].addr == a;
        }
      }
      forall i | 0 <= i < |rows| ensures rows[i].addr in AsMap(m, rows) && AsMap(m, rows)[rows[i].addr] == rows[i].name {
        if i > 0 { assert rows[i] == rows[1..][i - 1]; }
      }
    }
  }
}

/**
 The retention map: retentionmap.go sweeps the register window and prints one
 "0x<addr> <class>" line per chunk; loader.go reads the lines back.
 */
module RetentionText {
  import opened Common
  import opened Text

  // The map file

  /** How many bytes a character takes in UTF-8. */
  function Utf8Width(c: char): nat {
    if c as int < 0x80 then 1 else if c as int < 0x800 then 2 else if c as int < 0x10000 then 3 else 4
  }

  /** What `field[2:]` gives: the text after two bytes, a cut inside a character, or a panic. */
  datatype Tail = Text(s: string) | CutCharacter | OutOfRange

  function AfterTwoBytes(field: string): Tail
    requires field != ""
  {
    if Utf8Width(field[0]) == 2 then Text(field[1..])
    else if Utf8Width(field[0]) > 2 then CutCharacter
    else if |field| == 1 then OutOfRange
    else if Utf8Width(field[1]) == 1 then Text(field[2..])
    else CutCharacter
  }

  datatype Classes = Panicked | Loaded(entries: map<nat, string>)

  predicate LinePanics(line: string) {
    var fields := Fields(line);
    |fields| == 2 && AfterTwoBytes(fields[0]) == OutOfRange
  }

  /** The entry a line sets, if it sets one. */
  function Entry(line: string): (e: Option<(nat, string)>)
    ensures e.Some? ==> e.value.0 < TWO_32 && IsWord(e.value.1)
  {
    var fields := Fields(line);
    if |fields| != 2 || !AfterTwoBytes(fields[0]).Text? then None
    else
      var v := ParseUint32(AfterTwoBytes(fields[0]).s);
      if v == None then None else Some((v.value, fields[1]))
  }

  function Set(m: map<nat, string>, e: Option<(nat, string)>): map<nat, string> {
    if e == None then m else m[e.value.0 := e.value.1]
  }

  /** The lines in order, each one overriding the earlier ones for its address. */
  function LoadLines(m: map<nat, string>, lines: seq<string>): Classes
    decreases |lines|
  {
    if lines == [] then Loaded(m)
    else if LinePanics(lines[0]) then Panicked
    else LoadLines(Set(m, Entry(lines[0])), lines[1..])
  }

  method LoadRetentionClasses(data: string) returns (r: Classes)
    ensures r == LoadLines(map[], Lines(data))
  {
    var lines := Lines(data);
    var classes: map<nat, string> := map[];
    var i := 0;
    while i < |lines|
      invariant i <= |lines| && LoadLines(classes, lines[i..]) == LoadLines(map[], lines)
    {
      var fields := Fields(lines[i]);
      assert lines[i..][1..] == lines[i + 1..];
      i := i + 1;
      if |fields| != 2 { continue; }
      match AfterTwoBytes(fields[0]) {
        case OutOfRange => return Panicked;
        case CutCharacter => continue;
        case Text(tail) =>
          var addr := ParseUint32(tail);
          if addr == None { continue; }
          classes := classes[addr.value := fields[1]];
      }
    }
    r := Loaded(classes);
  }

  /** A number strconv.ParseUint(s, 16, 32) reads: hexadecimal digits only, at least one, and not too large. */
  predicate ReadableNumber(s: string) {
    s != "" && (forall i :: 0 <= i < |s| ==> DigitValue(s[i]).Some?) && (HexValue(s).Some? ==> HexValue(s).value < TWO_32)
  }

  /** The wrong number of fields, or an address that cannot be read. A first field of one byte is another matter. */
  predicate Malformed(line: string) {
    var f := Fields(line);
    || |f| != 2
    || (AfterTwoBytes(f[0]) != OutOfRange && !(AfterTwoBytes(f[0]).Text? && ReadableNumber(AfterTwoBytes(f[0]).s)))
  }

  lemma {:induction false} HexValueOfDigits(s: string)
    ensures HexValue(s).Some? <==> forall i :: 0 <= i < |s| ==> DigitValue(s[i]).Some?
    decreases |s|
  {
    if s != "" { HexValueOfDigits(s[..|s| - 1]); }
  }

  /** The malformed lines are exactly those that neither set an entry nor stop the reader. */
  lemma {:induction false} MalformedSetsNothing(line: string)
    ensures Malformed(line) <==> Entry(line) == None && !LinePanics(line)
  {
    var f := Fields(line);
    if |f| == 2 && AfterTwoBytes(f[0]).Text? { HexValueOfDigits(AfterTwoBytes(f[0]).s); }
  }

  /** A malformed line, anywhere in a file, can be dropped without changing what is loaded. */
  lemma {:induction false} MalformedLineIsIgnored(m: map<nat, string>, before: seq<string>, bad: string, after: seq<string>)
    requires Malformed(bad)
    ensures LoadLines(m, before + [bad] + after) == LoadLines(m, before + after)
    decreases |before|
  {
    MalformedSetsNothing(bad);
    if before == [] {
      assert ([] + [bad] + after)[1..] == after;
      assert [] + after == after;
    } else {
      assert (before + [bad] + after)[1..] == before[1..] + [bad] + after;
      assert (before + after)[1..] == before[1..] + after;
      if !LinePanics(before[0]) { MalformedLineIsIgnored(Set(m, Entry(before[0])), before[1..], bad, after); }
    }
  }

  function WellFormedOf(lines: seq<string>): seq<string>
    decreases |lines|
  {
    if lines == [] then []
    else if Malformed(lines[0]) then WellFormedOf(lines[1..])
    else [lines[0]] + WellFormedOf(lines[1..])
  }

  /** What a file gives is what its well-formed lines give. */
  lemma {:induction false} OnlyWellFormedLinesCount(m: map<nat, string>, lines: seq<string>)
    ensures LoadLines(m, lines) == LoadLines(m, WellFormedOf(lines))
    decreases |lines|
  {
    if lines != [] {
      var rest := WellFormedOf(lines[1..]);
      MalformedSetsNothing(lines[0]);
      OnlyWellFormedLinesCount(Set(m, Entry(lines[0])), lines[1..]);
      assert ([lines[0]] + rest)[1..] == rest;
    }
  }

  /** The reader survives exactly the files in which no two-field line starts with a one-byte field. */
  lemma {:induction false} LoadPanicsIff(m: map<nat, string>, lines: seq<string>)
    ensures LoadLines(m, lines) == Panicked <==> exists i :: 0 <= i < |lines| && LinePanics(lines[i])
    decreases |lines|
  {
    if lines != [] {
      var rest := lines[1..];
      LoadPanicsIff(Set(m, Entry(lines[0])), rest);
      if i :| 0 <= i < |rest| && LinePanics(rest[i]) { assert LinePanics(lines[i + 1]); }
      if i :| 0 <= i < |lines| && LinePanics(lines[i]) { assert i > 0 ==> LinePanics(rest[i - 1]); }
    }
  }

  /** A line like "a word" stops the reader. */
  lemma {:induction false} OneLetterLinePanics(word: string)
    requires IsWord(word)
    ensures LoadLines(map[], Lines("a" + " " + word)) == Panicked
  {
    var line := "a" + " " + word;
    TwoFields("a", word);
    assert AfterTwoBytes("a") == OutOfRange && LinePanics(line);
    assert '\n' !in line by { assert IsSpace('\n'); }
    NoNewline(line);
    assert LoadLines(map[], [line]) == Panicked;
  }

  lemma {:induction false} NoNewline(s: string)
    requires '\n' !in s
    ensures Lines(s) == [s]
    decreases |s|
  {
    if s != "" {
      NoNewline(s[1..]);
      assert [s[0]] + s[1..] == s;
    }
  }

  // Printing

  /** fmt.Sprintf("0x%08x %s", addr, class) */
  function Line(addr: nat, class_: string): string
    requires addr < TWO_32
  {
    "0x" + Hex(addr, 8) + " " + class_
  }

  datatype Row = Row(addr: nat, name: string)

  predicate Printable(row: Row) { row.addr < TWO_32 && IsWord(row.name) }

  function Printed(rows: seq<Row>): string
    requires forall i :: 0 <= i < |rows| ==> Printable(rows[i])
    decreases |rows|
  {
    if rows == [] then ""
    else
      assert Printable(rows[0]);
      Line(rows[0].addr, rows[0].name) + "\n" + Printed(rows[1..])
  }

  function AsMap(m: map<nat, string>, rows: seq<Row>): map<nat, string>
    decreases |rows|
  {
    if rows == [] then m else AsMap(m[rows[0].addr := rows[0].name], rows[1..])
  }

  lemma LineReadsBack(row: Row)
    requires Printable(row)
    ensures '\n' !in Line(row.addr, row.name)
    ensures Entry(Line(row.addr, row.name)) == Some((row.addr, row.name)) && !LinePanics(Line(row.addr, row.name))
  {
    var field := "0x" + Hex(row.addr, 8);
    var line := field + " " + row.name;
    forall i | 0 <= i < |field| ensures !IsSpace(field[i]) {
      if i >= 2 { assert field[i] == Hex(row.addr, 8)[i - 2]; }
    }
    TwoFields(field, row.name);
    assert Pow16(8) == TWO_32;
    HexRoundTrip(row.addr, 8);
    assert field[0] == '0' && field[1] == 'x' && field[2..] == Hex(row.addr, 8);
    assert IsSpace('\n');
  }

  /** Reading printed rows gives the map they describe, the last row for an address winning. */
  lemma {:induction false} PrintedRowsReadBack(m: map<nat, string>, rows: seq<Row>)
    requires forall i :: 0 <= i < |rows| ==> Printable(rows[i])
    ensures LoadLines(m, Lines(Printed(rows))) == Loaded(AsMap(m, rows))
    decreases |rows|
  {
    if rows == [] {
      assert Fields("") == [];
      assert Lines("")[1..] == [];
    } else {
      var line := Line(rows[0].addr, rows[0].name);
      LineReadsBack(rows[0]);
      LinesFirst(line, Printed(rows[1..]));
      var lines := Lines(Printed(rows));
      assert lines[1..] == Lines(Printed(rows[1..]));
      PrintedRowsReadBack(m[rows[0].addr := rows[0].name], rows[1..]);
    }
  }

  /** The rows are exactly the entries of the map, in whatever order. */
  predicate Lists(rows: seq<Row>, m: map<nat, string>) {
    && (forall i :: 0 <= i < |rows| ==> rows[i].addr in m && m[rows[i].addr] == rows[i].name)
    && forall a :: a in m ==> Row(a, m[a]) in rows
  }

  lemma {:induction false} AsMapOf(rows: seq<Row>, m: map<nat, string>, start: map<nat, string>)
    requires forall i :: 0 <= i < |rows| ==> rows[i].addr in m && m[rows[i].addr] == rows[i].name
    requires forall a :: a in start ==> a in m && m[a] == start[a]
    requires forall a :: a in m ==> a in start || Row(a, m[a]) in rows
    ensures AsMap(start, rows) == m
    decreases |rows|
  {
    if rows == [] {
    } else {
      var next := start[rows[0].addr := rows[0].name];
      forall a | a in m ensures a in next || Row(a, m[a]) in rows[1..] {
        if a !in start { assert rows == [rows[0]] + rows[1..]; }
      }
      AsMapOf(rows[1..], m, next);
    }
  }

  /** Printing a map, in any order, and reading it back gives the same map. */
  lemma MapRoundTrip(rows: seq<Row>, m: map<nat, string>)
    requires Lists(rows, m) && forall a :: a in m ==> a < TWO_32 && IsWord(m[a])
    ensures LoadLines(map[], Lines(Printed(rows))) == Loaded(m)
  {
    PrintedRowsReadBack(map[], rows);
    AsMapOf(rows, m, map[]);
  }
}

/** The two probes of retentionmap.go and the class their answers give an address. */
module RetentionProbes {
  import opened Common
  import opened Text
  import HybridUpload

  /** What the chip did with one address: `None` for a failed write or read. */
  datatype Answer = Answer(wordWritten: bool, afterWord: Option<nat>, blockWritten: bool, afterBlock: Option<nat>)

  function Pattern(a: nat): nat {
    var b := a % 256;
    b + 256 * ((b + 1) % 256) + 65536 * ((b + 2) % 256) + 16777216 * ((b + 3) % 256)
  }

  function BlockByte(a: nat, j: nat): Byte { (a % 256 + j) % 256 }

  function BlockWord(a: nat): nat {
    HybridUpload.FromLE32([BlockByte(a, 0), BlockByte(a, 1), BlockByte(a, 2), BlockByte(a, 3)])
  }

  function ClassName(wordOk: bool, blkOk: bool): (name: string)
    ensures IsWord(name)
  {
    if wordOk && blkOk then "both" else if wordOk then "word" else if blkOk then "blk" else "none"
  }

  predicate Wedges(x: Answer) { !x.wordWritten || !x.blockWritten }

  function Classify(a: nat, x: Answer): (name: string)
    ensures IsWord(name)
  {
    ClassName(x.afterWord == Some(Pattern(a)), x.afterBlock == Some(BlockWord(a)))
  }

  /**
   Both probes write the same first word, so the sweep cannot see a block write that does nothing:
   the class "word" appears only when the block write changed what the word write had left.
   */
  lemma WordClassNeedsDamage(a: nat, x: Answer)
    ensures Pattern(a) == BlockWord(a)
    ensures Classify(a, x) == "word" ==> x.afterBlock != x.afterWord
    ensures x.afterBlock == x.afterWord ==> Classify(a, x) == "both" || Classify(a, x) == "none"
  {
  }
}
