/**
 A reader for the generated addresses file, and the proof that it finds what was generated.
 */
module AddressesReader {
  import opened Options
  import opened GeneratedAddresses

  // ---------------------------------------------------------------------------
  // Reading the constants back
  // ---------------------------------------------------------------------------

  /** The length of the longest prefix without `c`. */
  function UpTo(s: string, c: char): (n: nat)
    ensures n <= |s|
  {
    if s == "" || s[0] == c then 0 else 1 + UpTo(s[1..], c)
  }

  lemma {:induction false} UpToOf(a: string, c: char, rest: string)
    requires c !in a && rest != "" && rest[0] == c
    ensures UpTo(a + rest, c) == |a|
    ensures (a + rest)[..|a|] == a && (a + rest)[|a|..] == rest
  {
    if a == "" {
      assert a + rest == rest;
    } else {
      assert (a + rest)[1..] == a[1..] + rest;
      UpToOf(a[1..], c, rest);
    }
  }

  /** The text cut at its newlines; `current` is what the current line holds so far. */
  function Lines(s: string, current: string): seq<string>
    decreases |s|
  {
    if s == "" then [current]
    else if s[0] == '\n' then [current] + Lines(s[1..], "")
    else Lines(s[1..], current + [s[0]])
  }

  lemma {:induction false} OneLine(line: string, rest: string, current: string)
    requires '\n' !in line
    ensures Lines(line + ("\n" + rest), current) == [current + line] + Lines(rest, "")
    decreases |line|
  {
    var s := line + ("\n" + rest);
    if line == "" {
      assert s == "\n" + rest && s[1..] == rest && current + line == current;
    } else {
      assert s[1..] == line[1..] + ("\n" + rest) && line[0] in line;
      OneLine(line[1..], rest, current + [line[0]]);
      assert (current + [line[0]]) + line[1..] == current + line;
    }
  }

  lemma {:induction false} LinesOfText(lines: seq<string>, rest: string)
    requires forall k :: 0 <= k < |lines| ==> '\n' !in lines[k]
    ensures Lines(Text(lines) + rest, "") == lines + Lines(rest, "")
  {
    if lines == [] {
      assert Text(lines) + rest == rest;
    } else {
      hide Lines;
      assert Text(lines) == lines[0] + "\n" + Text(lines[1..]);
      hide Text;
      var tail := Text(lines[1..]) + rest;
      LinesOfText(lines[1..], rest);
      OneLine(lines[0], tail, "");
      assert Text(lines) + rest == lines[0] + ("\n" + tail);
      assert "" + lines[0] == lines[0] && lines == [lines[0]] + lines[1..];
    }
  }

  /** The two strings of a JSON property. */
  function ReadEntry(line: string): (string, string) {
    var s := if |line| >= 3 then line[3..] else "";
    var n := UpTo(s, '"');
    var t := if n + 4 <= |s| then s[n + 4..] else "";
    (s[..n], t[..UpTo(t, '"')])
  }

  lemma EntryText(entry: (string, string), last: bool)
    ensures var end := if last then "\"" else "\",";
            EntryLine(entry, last) == "  \"" + (entry.0 + ("\": \"" + (entry.1 + end)))
  {
  }

  lemma ReadParts(name: string, value: string, end: string)
    requires '"' !in name && '"' !in value && end != "" && end[0] == '"'
    ensures ReadEntry("  \"" + (name + ("\": \"" + (value + end)))) == (name, value)
  {
    var t := value + end;
    var s := name + ("\": \"" + t);
    assert ("  \"" + s)[3..] == s;
    UpToOf(name, '"', "\": \"" + t);
    assert s[|name| + 4..] == t;
    UpToOf(value, '"', end);
  }

  lemma EntryReadsBack(entry: (string, string), last: bool)
    requires '"' !in entry.0 && '"' !in entry.1
    ensures ReadEntry(EntryLine(entry, last)) == entry
  {
    EntryText(entry, last);
    hide EntryLine, ReadEntry;
    ReadParts(entry.0, entry.1, if last then "\"" else "\",");
  }

  /** Properties up to the closing brace. */
  function ReadEntries(lines: seq<string>): seq<(string, string)> {
    if lines == [] || lines[0] == "};" then [] else [ReadEntry(lines[0])] + ReadEntries(lines[1..])
  }

  lemma ReadEntriesCons(line: string, tail: seq<string>)
    requires line != "};"
    ensures ReadEntries([line] + tail) == [ReadEntry(line)] + ReadEntries(tail)
  {
    assert ([line] + tail)[1..] == tail;
  }

  lemma EntryLineIsNoBrace(entry: (string, string), last: bool)
    ensures EntryLine(entry, last) != "};"
  {
    assert EntryLine(entry, last)[0] == ' ';
  }

  lemma {:induction false} EntriesReadBack(entries: seq<(string, string)>, rest: seq<string>)
    requires forall k :: 0 <= k < |entries| ==> '"' !in entries[k].0 && '"' !in entries[k].1
    ensures ReadEntries(EntryLines(entries) + (["};"] + rest)) == entries
    ensures |EntryLines(entries)| == |entries|
  {
    hide ReadEntry, EntryLine;
    var close := ["};"] + rest;
    if entries == [] {
      assert EntryLines(entries) + close == close && close[0] == "};";
    } else {
      hide ReadEntries;
      var line := EntryLine(entries[0], |entries| == 1);
      var tail := EntryLines(entries[1..]) + close;
      EntryReadsBack(entries[0], |entries| == 1);
      EntriesReadBack(entries[1..], rest);
      EntryLineIsNoBrace(entries[0], |entries| == 1);
      assert EntryLines(entries) + close == [line] + tail;
      ReadEntriesCons(line, tail);
      assert entries == [entries[0]] + entries[1..];
    }
  }

  function ReadDecimal(s: string): int
    decreases |s|
  {
    if s == "" then 0 else 10 * ReadDecimal(s[..|s| - 1]) + (s[|s| - 1] as int - '0' as int)
  }

  lemma {:induction false} DecimalReadsBack(n: nat)
    ensures ReadDecimal(Decimal(n)) == n && Decimal(n) != ""
  {
    var s := Decimal(n);
    assert s[|s| - 1] as int - '0' as int == n % 10;
    if n < 10 {
      assert s[..|s| - 1] == "";
    } else {
      DecimalReadsBack(n / 10);
      assert s[..|s| - 1] == Decimal(n / 10);
    }
  }

  /** A constant with its comment: the contract type, the name, the entries, and the number in the comment. */
  function ReadBlock(lines: seq<string>): (Column, int)
    requires |lines| >= 5
  {
    var title, count, head := lines[1], lines[2], lines[4];
    var entries :=
      if head != "" && head[|head| - 1] == ';' then [] else ReadEntries(lines[5..]);
    var constant := if |head| >= 13 then head[13..][..UpTo(head[13..], ':')] else "";
    var contractType := if |title| >= 32 then title[3..|title| - 29] else "";
    (Column(contractType, constant, entries), ReadDecimal(if |count| >= 23 then count[23..] else ""))
  }

  /** No line breaks in what is printed, and no quotes or colons where they end it. */
  ghost predicate Readable(c: Column) {
    && '\n' !in c.contractType && '\n' !in c.constant && ':' !in c.constant
    && forall k :: 0 <= k < |c.entries| ==>
         && '"' !in c.entries[k].0 && '"' !in c.entries[k].1
         && '\n' !in c.entries[k].0 && '\n' !in c.entries[k].1
  }

  lemma TitleReadsBack(name: string)
    ensures var title := " * " + name + " contract addresses by chain.";
            |title| >= 32 && title[3..|title| - 29] == name
  {
    var title := " * " + name + " contract addresses by chain.";
    assert |" contract addresses by chain."| == 29;
    assert |title| == 32 + |name|;
  }

  lemma HeadReadsBack(name: string, rest: string)
    requires ':' !in name && rest != "" && rest[0] == ':'
    ensures var head := "export const " + name + rest;
            |head| >= 13 && head[13..][..UpTo(head[13..], ':')] == name
  {
    var head := "export const " + name + rest;
    assert |"export const "| == 13;
    assert head[13..] == name + rest;
    UpToOf(name, ':', rest);
  }

  lemma CountReadsBack(n: nat)
    ensures var count := " * Deployed contracts: " + Decimal(n);
            |count| >= 23 && ReadDecimal(count[23..]) == n
  {
    var count := " * Deployed contracts: " + Decimal(n);
    assert |" * Deployed contracts: "| == 23;
    assert count[23..] == Decimal(n);
    DecimalReadsBack(n);
  }

  lemma BlockReadsBack(c: Column, rest: seq<string>)
    requires Readable(c)
    ensures var lines := BlockLines(c) + rest;
            && |BlockLines(c)| >= 5 && lines[0] == "/**"
            && ReadBlock(lines) == (c, |c.entries|)
            && |BlockLines(c)| == |c.entries| + (if c.entries == [] then 6 else 7)
  {
    hide ReadEntries, ReadDecimal, Decimal;
    var lines := BlockLines(c) + rest;
    var end := if c.entries == [] then ": Record<string, string> = {};" else ": Record<string, string> = {";
    TitleReadsBack(c.contractType);
    CountReadsBack(|c.entries|);
    HeadReadsBack(c.constant, end);
    EntriesReadBack(c.entries, [""] + rest);
    var head := lines[4];
    assert head == "export const " + c.constant + end;
    assert head[|head| - 1] == end[|end| - 1];
    if c.entries != [] {
      assert lines[5..] == EntryLines(c.entries) + (["};"] + ([""] + rest));
    }
  }

  /** Constants one after the other, as long as there is another comment. */
  function ReadBlocks(lines: seq<string>): seq<(Column, int)>
    decreases |lines|
  {
    if |lines| < 5 || lines[0] != "/**" then [] else
      var block := ReadBlock(lines);
      var n := |block.0.entries| + (if block.0.entries == [] then 6 else 7);
      [block] + (if n <= |lines| then ReadBlocks(lines[n..]) else [])
  }

  lemma ReadBlocksCons(c: Column, tail: seq<string>)
    requires Readable(c)
    ensures ReadBlocks(BlockLines(c) + tail) == [(c, |c.entries|)] + ReadBlocks(tail)
  {
    hide ReadBlock, BlockLines, ReadEntries;
    var lines := BlockLines(c) + tail;
    BlockReadsBack(c, tail);
    assert lines[|BlockLines(c)|..] == tail;
  }

  lemma {:induction false} BlocksReadBack(columns: seq<Column>, rest: seq<string>)
    requires forall i :: 0 <= i < |columns| ==> Readable(columns[i])
    requires rest != [] && rest[0] == ""
    ensures var read := ReadBlocks(Blocks(columns) + rest);
            |read| == |columns| && forall i :: 0 <= i < |columns| ==> read[i] == (columns[i], |columns[i].entries|)
  {
    hide BlockLines, ReadBlock;
    if columns == [] {
      assert Blocks(columns) + rest == rest;
    } else {
      hide ReadBlocks;
      var tail := Blocks(columns[1..]) + rest;
      BlocksReadBack(columns[1..], rest);
      assert Blocks(columns) + rest == BlockLines(columns[0]) + tail;
      ReadBlocksCons(columns[0], tail);
    }
  }

  lemma {:induction false} NoBreakInDecimal(n: nat)
    ensures '\n' !in Decimal(n)
  {
    if n >= 10 {
      NoBreakInDecimal(n / 10);
    }
  }

  lemma {:induction false} NoBreakInEntries(entries: seq<(string, string)>, k: nat)
    requires forall i :: 0 <= i < |entries| ==> '\n' !in entries[i].0 && '\n' !in entries[i].1
    requires k < |EntryLines(entries)|
    ensures '\n' !in EntryLines(entries)[k]
  {
    if k > 0 {
      NoBreakInEntries(entries[1..], k - 1);
    }
  }

  lemma NoBreakInComment(c: Column, k: nat)
    requires Readable(c) && k < |CommentLines(c)|
    ensures '\n' !in CommentLines(c)[k]
  {
    NoBreakInDecimal(|c.entries|);
    hide Decimal;
  }

  lemma NoBreakInConstant(c: Column, k: nat)
    requires Readable(c) && k < |ConstantLines(c)|
    ensures '\n' !in ConstantLines(c)[k]
  {
    if c.entries != [] && 1 <= k < 1 + |EntryLines(c.entries)| {
      NoBreakInEntries(c.entries, k - 1);
      assert ConstantLines(c)[k] == EntryLines(c.entries)[k - 1];
    }
  }

  lemma NoBreakInBlock(c: Column, k: nat)
    requires Readable(c) && k < |BlockLines(c)|
    ensures '\n' !in BlockLines(c)[k]
  {
    hide CommentLines, ConstantLines;
    var n := |CommentLines(c)|;
    if k < n {
      NoBreakInComment(c, k);
    } else {
      NoBreakInConstant(c, k - n);
    }
  }

  lemma {:induction false} NoBreakInBlocks(columns: seq<Column>, k: nat)
    requires forall i :: 0 <= i < |columns| ==> Readable(columns[i])
    requires k < |Blocks(columns)|
    ensures '\n' !in Blocks(columns)[k]
  {
    var n := |BlockLines(columns[0])|;
    if k < n {
      NoBreakInBlock(columns[0], k);
    } else {
      NoBreakInBlocks(columns[1..], k - n);
    }
  }

  /**
   What the generated file says: behind its fixed header it reads back as exactly the columns it
   was made from, in order, each with its type, its name, all its entries and their right number.
   */
  lemma FileReadsBack(timestamp: string, columns: seq<Column>, manual: string)
    requires forall i :: 0 <= i < |columns| ==> Readable(columns[i])
    ensures var constants := Text(Blocks(columns)) + ("\n" + manual);
            && Constants(timestamp, columns) + "\n" + manual == Text(Header(timestamp)) + constants
            && (var read := ReadBlocks(Lines(constants, ""));
                |read| == |columns| && forall i :: 0 <= i < |columns| ==> read[i] == (columns[i], |columns[i].entries|))
  {
    hide Lines, ReadBlocks, Text, Header, Blocks;
    var blocks := Blocks(columns);
    forall k | 0 <= k < |blocks| ensures '\n' !in blocks[k] {
      NoBreakInBlocks(columns, k);
    }
    LinesOfText(blocks, "\n" + manual);
    OneLine("", manual, "");
    assert "" + ("\n" + manual) == "\n" + manual && "" + "" == "";
    TextConcat(Header(timestamp), blocks);
    BlocksReadBack(columns, [""] + Lines(manual, ""));
  }
}
